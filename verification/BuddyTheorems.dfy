/**
  What holds of the buddy allocator in every state it can reach. The results about maximal blocks need a
  start without free siblings side by side (`Coalesced`), and no more than that: two of them are shown to
  hold exactly then. The others hold from any consistent start.
*/
module BuddyTheorems {
  import opened Bits
  import opened Common
  import opened BuddyModel
  import opened BuddyRuns

  ghost predicate AllFree(own: seq<Tile>, i: nat, o: nat) {
    i + Pow2(o) <= |own| && forall p :: Within(p, i, o) ==> own[p].kind == Free
  }

  /** An aligned run of free pages that no larger aligned run of free pages contains. */
  ghost predicate MaximalFree(own: seq<Tile>, i: nat, o: nat) {
    && o <= MAX_ORDER && Aligned(i, o) && AllFree(own, i, o)
    && (o < MAX_ORDER ==> !AllFree(own, Lower(i, o), o + 1))
  }

  /** The pages of `(i, o)` lie in one block of the partition `base`. */
  ghost predicate InOneBlock(base: seq<Tile>, i: nat, o: nat) {
    i + Pow2(o) <= |base| && forall p :: Within(p, i, o) ==> base[p] == base[i]
  }

  lemma NotBothFree(base: seq<Tile>, own: seq<Tile>, i: nat, c: nat)
    requires CoalescedIn(base, own) && c < MAX_ORDER && Aligned(i, c + 1) && IsHead(own, i, c, Free)
    requires InOneBlock(base, i, c + 1)
    ensures !IsHead(own, i + Pow2(c), c, Free)
  {
    UpperBuddy(i, c);
    BuddyFacts(i + Pow2(c), c);
    assert Within(i, i, c + 1) && Within(i + Pow2(c), i, c + 1);
    assert SameBlock(base, i, i + Pow2(c));
  }

  /** Where no free siblings are left side by side, an aligned run of free pages lies inside one free block. */
  lemma {:induction false} RunInOneBlock(base: seq<Tile>, own: seq<Tile>, i: nat, o: nat)
    requires Tiled(own) && CoalescedIn(base, own) && o <= MAX_ORDER && Aligned(i, o) && AllFree(own, i, o)
    requires InOneBlock(base, i, o)
    ensures own[i].order >= o && own[i].head <= i && i + Pow2(o) <= own[i].head + Pow2(own[i].order)
    decreases o
  {
    assert TileAt(own, i);
    if o > 0 {
      var c := o - 1;
      var j := i + Pow2(c);
      assert Pow2(o) == Pow2(c) + Pow2(c);
      AlignedDown(i, c, o);
      AlignedStep(i, c);
      RunInOneBlock(base, own, i, c);
      RunInOneBlock(base, own, j, c);
      var t, u := own[i], own[j];
      if t.order == c {
        assert TileAt(own, j);
        SameOrderSame(i, t.head, i, c);
        if u.order == c { SameOrderSame(j, u.head, j, c); }
        NotBothFree(base, own, i, c);
        if u.order > c {
          Nested(j, i, o, u.head, u.order);
        }
        assert false;
      } else {
        Nested(i, i, o, t.head, t.order);
      }
    }
  }

  /** All `n` pages in one block. */
  ghost function Whole(n: nat): (r: seq<Tile>)
    ensures |r| == n && forall p, q :: 0 <= p < n && 0 <= q < n ==> r[p] == r[q]
  {
    seq(n, p => Tile(0, 0, Free))
  }

  lemma CoalescedIff(own: seq<Tile>)
    ensures Coalesced(own) <==> CoalescedIn(Whole(|own|), own)
  {
  }

  /** In a coalesced state an aligned run of free pages lies inside one free block. */
  lemma CoalescedRun(own: seq<Tile>, i: nat, o: nat)
    requires Tiled(own) && Coalesced(own) && o <= MAX_ORDER && Aligned(i, o) && AllFree(own, i, o)
    ensures own[i].order >= o && own[i].head <= i && i + Pow2(o) <= own[i].head + Pow2(own[i].order)
  {
    CoalescedIff(own);
    RunInOneBlock(Whole(|own|), own, i, o);
  }

  lemma HeadIsMaximal(own: seq<Tile>, i: nat, o: nat)
    requires Tiled(own) && Coalesced(own) && IsHead(own, i, o, Free)
    ensures MaximalFree(own, i, o)
  {
    assert TileAt(own, i);
    BuddyFacts(i, o);
    assert TileAt(own, Lower(i, o));
    if o < MAX_ORDER && AllFree(own, Lower(i, o), o + 1) {
      CoalescedRun(own, Lower(i, o), o + 1);
      assert false;
    }
  }

  lemma MaximalIsHead(own: seq<Tile>, i: nat, o: nat)
    requires Tiled(own) && Coalesced(own) && MaximalFree(own, i, o)
    ensures IsHead(own, i, o, Free)
  {
    CoalescedRun(own, i, o);
    assert TileAt(own, i);
    var t := own[i];
    if t.order > o {
      BuddyFacts(i, o);
      Nested(i, Lower(i, o), o + 1, t.head, t.order);
      assert false;
    } else {
      SameOrderSame(i, i, t.head, o);
    }
  }

  /**
    The free blocks of a coalesced state are the maximal aligned runs of free pages: the free lists
    are a function of which pages are free, and remember nothing of how they became so.
  */
  lemma FreeBlocksAreMaximal(own: seq<Tile>, i: nat, o: nat)
    requires Tiled(own) && Coalesced(own)
    ensures IsHead(own, i, o, Free) <==> MaximalFree(own, i, o)
  {
    if IsHead(own, i, o, Free) { HeadIsMaximal(own, i, o); }
    if MaximalFree(own, i, o) { MaximalIsHead(own, i, o); }
  }

  /** A free block next to its free sibling is not maximal. */
  lemma SiblingsNotMaximal(own: seq<Tile>, p: nat, o: nat)
    requires Tiled(own) && o < MAX_ORDER && IsHead(own, p, o, Free) && IsHead(own, Buddy(p, o), o, Free)
    ensures !MaximalFree(own, p, o)
  {
    assert TileAt(own, p) && TileAt(own, Buddy(p, o));
    BuddyFacts(p, o);
    assert Pow2(o + 1) == Pow2(o) + Pow2(o);
    assert AllFree(own, Lower(p, o), o + 1);
  }

  /** The coalesced states are exactly those whose free blocks are the maximal aligned runs of free pages. */
  lemma CoalescedIffMaximal(own: seq<Tile>)
    requires Tiled(own)
    ensures Coalesced(own) <==> forall i: nat, o: nat :: IsHead(own, i, o, Free) <==> MaximalFree(own, i, o)
  {
    if Coalesced(own) {
      forall i: nat, o: nat ensures IsHead(own, i, o, Free) <==> MaximalFree(own, i, o) {
        FreeBlocksAreMaximal(own, i, o);
      }
    } else {
      var p: nat, o: nat :| IsHead(own, p, o, Free) && o < MAX_ORDER && IsHead(own, Buddy(p, o), o, Free);
      SiblingsNotMaximal(own, p, o);
    }
  }

  /** Equal free pages, equal free blocks: whatever was allocated and freed in between. */
  lemma FreeBlocksDetermined(own: seq<Tile>, own': seq<Tile>)
    requires Tiled(own) && Coalesced(own) && Tiled(own') && Coalesced(own')
    requires |own| == |own'| && forall p :: 0 <= p < |own| ==> (own[p].kind == Free <==> own'[p].kind == Free)
    ensures forall i: nat, o: nat :: IsHead(own, i, o, Free) <==> IsHead(own', i, o, Free)
  {
    forall i: nat, o: nat ensures IsHead(own, i, o, Free) <==> IsHead(own', i, o, Free) {
      FreeBlocksAreMaximal(own, i, o);
      FreeBlocksAreMaximal(own', i, o);
      assert AllFree(own, i, o) <==> AllFree(own', i, o);
      assert AllFree(own, Lower(i, o), o + 1) <==> AllFree(own', Lower(i, o), o + 1);
    }
  }

  lemma RunIsFound(s: State, i: nat, order: nat)
    requires Inv(s) && Coalesced(s.own) && order <= MAX_ORDER && Aligned(i, order) && AllFree(s.own, i, order)
    ensures FirstFit(s.lists, order) <= MAX_ORDER
  {
    CoalescedRun(s.own, i, order);
    assert TileAt(s.own, i);
    var t := s.own[i];
    assert IsHead(s.own, t.head, t.order, Free);
    assert ListAgrees(s.own, s.lists[t.order], t.order);
    assert t.head in s.lists[t.order];
  }

  /** `alloc` fails exactly when there is no free block of that order or above. */
  lemma AllocFailsIff(s: State, order: nat)
    requires Inv(s)
    ensures Alloc(s, order).0.None? <==>
            order > MAX_ORDER || forall i: nat, o: nat :: IsHead(s.own, i, o, Free) ==> o < order
  {
    if order <= MAX_ORDER {
      var o := FirstFit(s.lists, order);
      if o <= MAX_ORDER {
        PopInHand(s, o);
      } else {
        forall i: nat, n: nat | IsHead(s.own, i, n, Free) ensures n < order {
          assert TileAt(s.own, i);
          assert ListAgrees(s.own, s.lists[n], n);
        }
      }
    }
  }

  /** In a coalesced state: exactly when no aligned run of `1 << order` free pages exists. */
  lemma CoalescedAllocFailsIff(s: State, order: nat)
    requires Inv(s) && Coalesced(s.own)
    ensures Alloc(s, order).0.None? <==>
            order > MAX_ORDER || forall i: nat :: !(Aligned(i, order) && AllFree(s.own, i, order))
  {
    if order <= MAX_ORDER {
      var o := FirstFit(s.lists, order);
      if o <= MAX_ORDER {
        var i := s.lists[o][0];
        PopInHand(s, o);
        assert TileAt(s.own, i);
        AlignedDown(i, order, o);
        SplitOwnMoves(Pop(s, o).own, i, o, order);
        assert AllFree(s.own, i, order);
      } else if i: nat :| Aligned(i, order) && AllFree(s.own, i, order) {
        RunIsFound(s, i, order);
        assert false;
      }
    }
  }

  /** Blocks that start at different pages share no page. */
  lemma BlocksDisjoint(own: seq<Tile>, i: nat, j: nat, p: int)
    requires Tiled(own) && i < |own| && j < |own| && own[i].head == i && own[j].head == j && i != j
    ensures !(Within(p, i, own[i].order) && Within(p, j, own[j].order))
  {
    assert TileAt(own, i) && TileAt(own, j);
  }

  // ----- Runs -----

  datatype Op = AllocOp(order: nat) | FreeOp(head: nat)

  ghost predicate Enabled(s: State, op: Op) {
    op.FreeOp? ==> op.head < |s.own| && |s.own| <= |s.meta| && IsHead(s.own, op.head, s.meta[op.head].order, Live)
  }

  /** One operation; a release of an address that is not live is not made. */
  ghost function Step(s: State, op: Op): (r: State)
    requires Inv(s) && Enabled(s, op)
    ensures Inv(r) && |r.own| == |s.own|
    ensures forall p :: 0 <= p < |s.own| ==> (s.own[p].kind == Reserved <==> r.own[p].kind == Reserved)
  {
    match op
    case AllocOp(order) => AllocCorrect(s, order); Alloc(s, order).1
    case FreeOp(i) => ReleaseCorrect(s, i, s.meta[i].order); Release(s, i)
  }

  ghost predicate Legal(s: State, ops: seq<Op>)
    requires Inv(s)
    decreases |ops|
  {
    ops != [] ==> Enabled(s, ops[0]) && Legal(Step(s, ops[0]), ops[1..])
  }

  ghost function Run(s: State, ops: seq<Op>): (r: State)
    requires Inv(s) && Legal(s, ops)
    ensures Inv(r) && |r.own| == |s.own|
    ensures forall p :: 0 <= p < |s.own| ==> (s.own[p].kind == Reserved <==> r.own[p].kind == Reserved)
    decreases |ops|
  {
    if ops == [] then s else Run(Step(s, ops[0]), ops[1..])
  }

  ghost predicate NoneLive(s: State) {
    forall p :: 0 <= p < |s.own| ==> s.own[p].kind != Live
  }

  lemma StepCoalesced(base: seq<Tile>, s: State, op: Op)
    requires Inv(s) && Enabled(s, op) && CoalescedIn(base, s.own)
    ensures CoalescedIn(base, Step(s, op).own)
  {
    match op
    case AllocOp(order) => AllocCoalesced(base, s, order);
    case FreeOp(i) => ReleaseCoalesced(base, s, i, s.meta[i].order);
  }

  /** No run leaves free siblings side by side where there were none. */
  lemma {:induction false} RunCoalesced(base: seq<Tile>, s: State, ops: seq<Op>)
    requires Inv(s) && Legal(s, ops) && CoalescedIn(base, s.own)
    ensures CoalescedIn(base, Run(s, ops).own)
    decreases |ops|
  {
    if ops != [] {
      StepCoalesced(base, s, ops[0]);
      RunCoalesced(base, Step(s, ops[0]), ops[1..]);
    }
  }

  ghost predicate SameLists(s: State, r: State)
    requires Inv(s) && Inv(r)
  {
    forall o, i :: 0 <= o <= MAX_ORDER ==> (i in s.lists[o] <==> i in r.lists[o])
  }

  /**
    Once everything has been freed, in any order, the free lists of a run with a coalesced start hold what
    they held at the start.
  */
  lemma RunRestores(s: State, ops: seq<Op>)
    requires Inv(s) && Coalesced(s.own) && Legal(s, ops) && NoneLive(s) && NoneLive(Run(s, ops))
    ensures SameLists(s, Run(s, ops))
  {
    var r := Run(s, ops);
    CoalescedIff(s.own);
    RunCoalesced(Whole(|s.own|), s, ops);
    CoalescedIff(r.own);
    FreeBlocksDetermined(s.own, r.own);
    forall o, i | 0 <= o <= MAX_ORDER ensures i in s.lists[o] <==> i in r.lists[o] {
      assert ListAgrees(s.own, s.lists[o], o) && ListAgrees(r.own, r.lists[o], o);
    }
  }

  lemma SelfCoalesced(own: seq<Tile>)
    ensures CoalescedIn(own, own)
  {
    forall p: nat, o: nat | IsHead(own, p, o, Free) && SameBlock(own, p, Buddy(p, o))
      ensures !IsHead(own, Buddy(p, o), o, Free)
    {
      FlipMoves(p, o);
    }
  }

  /** From any start: a block all of whose pages are free in the end lies in one block then. */
  lemma RunGrows(s: State, ops: seq<Op>, i: nat, o: nat, k: Kind)
    requires Inv(s) && Legal(s, ops) && IsHead(s.own, i, o, k) && AllFree(Run(s, ops).own, i, o)
    ensures var t := Run(s, ops).own[i]; t.order >= o && t.head <= i && i + Pow2(o) <= t.head + Pow2(t.order)
  {
    assert TileAt(s.own, i);
    SelfCoalesced(s.own);
    RunCoalesced(s.own, s, ops);
    RunInOneBlock(s.own, Run(s, ops).own, i, o);
  }

  /** From any start: once everything has been freed, each block of the start lies in one free block. */
  lemma FreedRunGrows(s: State, ops: seq<Op>, i: nat, o: nat, k: Kind)
    requires Inv(s) && Legal(s, ops) && NoneLive(Run(s, ops)) && IsHead(s.own, i, o, k) && k != Reserved
    ensures var t := Run(s, ops).own[i];
            t.kind == Free && t.order >= o && t.head <= i && i + Pow2(o) <= t.head + Pow2(t.order)
  {
    assert TileAt(s.own, i);
    RunGrows(s, ops, i, o, k);
  }

  /** A live block stays as it is through any run that does not free it. */
  lemma {:induction false} RunKeepsLive(s: State, ops: seq<Op>, i: nat, o: nat)
    requires Inv(s) && Legal(s, ops) && IsHead(s.own, i, o, Live) && FreeOp(i) !in ops
    ensures forall p :: Within(p, i, o) ==> 0 <= p < |s.own| && Run(s, ops).own[p] == Tile(i, o, Live)
    decreases |ops|
  {
    assert TileAt(s.own, i);
    if ops != [] {
      var s' := Step(s, ops[0]);
      StepKeepsLive(s, ops[0], i, o);
      RunKeepsLive(s', ops[1..], i, o);
    }
  }

  lemma StepKeepsLive(s: State, op: Op, i: nat, o: nat)
    requires Inv(s) && Enabled(s, op) && IsHead(s.own, i, o, Live) && op != FreeOp(i)
    ensures IsHead(Step(s, op).own, i, o, Live)
  {
    match op
    case AllocOp(order) => AllocCorrect(s, order);
    case FreeOp(j) =>
      ReleaseCorrect(s, j, s.meta[j].order);
      assert TileAt(s.own, i) && TileAt(s.own, j);
  }

  // ----- Counting -----

  ghost function PagesOf(own: seq<Tile>, k: Kind): (r: set<nat>) {
    set p: nat | p < |own| && own[p].kind == k
  }

  ghost function Span(lo: nat, n: nat): (r: set<nat>)
    ensures forall p: nat :: p in r <==> lo <= p < lo + n
  {
    if n == 0 then {} else Span(lo, n - 1) + {lo + n - 1}
  }

  lemma {:induction false} SpanSize(lo: nat, n: nat)
    ensures |Span(lo, n)| == n
    decreases n
  {
    if n > 0 { SpanSize(lo, n - 1); }
  }

  /** Free, live and reserved pages add up to all pages, in every state. */
  lemma Conservation(own: seq<Tile>)
    ensures |PagesOf(own, Free)| + |PagesOf(own, Live)| + |PagesOf(own, Reserved)| == |own|
  {
    var f, l, r := PagesOf(own, Free), PagesOf(own, Live), PagesOf(own, Reserved);
    SpanSize(0, |own|);
    assert Span(0, |own|) == f + l + r;
    assert f !! l && (f + l) !! r;
  }

  /** What a block moved by `alloc` or `free` does to the counts. */
  lemma MovesCount(own: seq<Tile>, own': seq<Tile>, i: nat, o: nat, a: Kind, b: Kind)
    requires Moves(own, own', i, o, a, b) && a != b
    ensures |PagesOf(own', a)| == |PagesOf(own, a)| - Pow2(o)
    ensures |PagesOf(own', b)| == |PagesOf(own, b)| + Pow2(o)
  {
    var blk := Span(i, Pow2(o));
    SpanSize(i, Pow2(o));
    assert forall p :: p in blk <==> Within(p, i, o);
    assert PagesOf(own, a) == PagesOf(own', a) + blk && PagesOf(own', a) !! blk;
    assert PagesOf(own', b) == PagesOf(own, b) + blk && PagesOf(own, b) !! blk;
  }

  /** `free_page_count`: lengths of the lists from order `o` up, weighted by block size. */
  function ListTotal(lists: seq<seq<nat>>, o: nat): (r: nat)
    requires o <= |lists|
    decreases |lists| - o
  {
    if o == |lists| then 0 else |lists[o]| * Pow2(o) + ListTotal(lists, o + 1)
  }

  ghost function PagesFrom(own: seq<Tile>, o: nat): (r: set<nat>) {
    set p: nat | p < |own| && own[p].kind == Free && own[p].order >= o
  }

  ghost function PagesIn(own: seq<Tile>, l: seq<nat>, o: nat): (r: set<nat>) {
    set p: nat | p < |own| && own[p].kind == Free && own[p].order == o && own[p].head in l
  }

  lemma AddDisjoint(u: set<nat>, a: set<nat>, b: set<nat>)
    requires forall p :: p in u <==> p in a || p in b
    requires forall p :: !(p in a && p in b)
    ensures |u| == |a| + |b|
  {
    assert u == a + b;
    assert a !! b;
  }

  lemma MulStep(n: nat, n': nat, m: nat)
    requires n' == n + 1
    ensures n' * m == n * m + m
  {
  }

  lemma BlockPages(own: seq<Tile>, i: nat, o: nat, p: nat)
    requires Tiled(own) && IsHead(own, i, o, Free)
    ensures p in Span(i, Pow2(o)) <==> p < |own| && own[p] == Tile(i, o, Free)
  {
    assert TileAt(own, i);
    if p < |own| { assert TileAt(own, p); }
  }

  lemma {:induction false} ListPages(own: seq<Tile>, l: seq<nat>, o: nat)
    requires Tiled(own) && NoDup(l) && forall i :: i in l ==> IsHead(own, i, o, Free)
    ensures |PagesIn(own, l, o)| == |l| * Pow2(o)
    decreases |l|
  {
    if l == [] {
      assert PagesIn(own, l, o) == {};
    } else {
      var i, t := l[0], l[1..];
      assert i !in t;
      assert forall x :: x in l <==> x == i || x in t;
      ListPages(own, t, o);
      var blk, rest := Span(i, Pow2(o)), PagesIn(own, t, o);
      SpanSize(i, Pow2(o));
      forall p: nat ensures p in PagesIn(own, l, o) <==> p in rest || p in blk
                    ensures !(p in rest && p in blk)
      {
        BlockPages(own, i, o, p);
      }
      AddDisjoint(PagesIn(own, l, o), rest, blk);
      MulStep(|t|, |l|, Pow2(o));
      assert |PagesIn(own, l, o)| == |rest| + Pow2(o);
    }
  }

  lemma {:induction false} ListTotalFrom(s: State, o: nat)
    requires Inv(s) && o <= MAX_ORDER + 1
    ensures ListTotal(s.lists, o) == |PagesFrom(s.own, o)|
    decreases MAX_ORDER + 1 - o
  {
    if o == MAX_ORDER + 1 {
      forall p: nat | p < |s.own| ensures s.own[p].order <= MAX_ORDER {
        assert TileAt(s.own, p);
      }
      assert PagesFrom(s.own, o) == {};
    } else {
      ListTotalFrom(s, o + 1);
      assert ListAgrees(s.own, s.lists[o], o);
      ListPages(s.own, s.lists[o], o);
      var here := PagesIn(s.own, s.lists[o], o);
      forall p: nat | p < |s.own| && s.own[p].kind == Free && s.own[p].order == o ensures p in here {
        assert TileAt(s.own, p);
        assert IsHead(s.own, s.own[p].head, o, Free);
      }
      assert PagesFrom(s.own, o) == PagesFrom(s.own, o + 1) + here;
      assert PagesFrom(s.own, o + 1) !! here;
    }
  }

  /** Walking the free lists counts exactly the free pages. */
  lemma FreePageCountCorrect(s: State)
    requires Inv(s)
    ensures ListTotal(s.lists, 0) == |PagesOf(s.own, Free)|
  {
    ListTotalFrom(s, 0);
    assert PagesFrom(s.own, 0) == PagesOf(s.own, Free);
  }

  // ----- Releasing an address twice -----

  /** The head of the block that releasing `(i, o)` ends in. */
  ghost function FinalHead(own: seq<Tile>, i: nat, o: nat): (r: nat)
    requires o <= MAX_ORDER
    ensures r <= i
    decreases MAX_ORDER - o
  {
    if o < MAX_ORDER && IsHead(own, Buddy(i, o), o, Free)
    then FinalHead(Retile(own, Tile(Lower(i, o), o + 1, Live)), Lower(i, o), o + 1)
    else i
  }

  /** Of all metadata, only that of the final head is written. */
  lemma {:induction false} MergeUpMeta(s: State, i: nat, o: nat)
    requires o <= MAX_ORDER && InHand(s, i, o) && PaddingUsed(s)
    ensures var r, h := MergeUp(s, i, o), FinalHead(s.own, i, o);
            && |r.meta| == |s.meta| && h < |s.meta| && !r.meta[h].used
            && forall p :: 0 <= p < |s.meta| && p != h ==> r.meta[p] == s.meta[p]
    decreases MAX_ORDER - o
  {
    CanMergeIff(s, i, o);
    if CanMerge(s, i, o) {
      MergeInHand(s, i, o);
      var m := MergeOne(s, i, o);
      MergeUpMeta(m, Lower(i, o), o + 1);
      assert MergeUp(s, i, o) == MergeUp(m, Lower(i, o), o + 1);
      assert FinalHead(s.own, i, o) == FinalHead(m.own, Lower(i, o), o + 1);
    } else {
      assert MergeUp(s, i, o) == Return(s, i, o);
      assert FinalHead(s.own, i, o) == i;
    }
  }

  /**
    Up to some level at which block `i` is the upper sibling, all siblings of the blocks it grows into are free blocks
    of the same size.
  */
  ghost predicate MergesDown(own: seq<Tile>, i: nat, o: nat) {
    exists n: nat :: o <= n < MAX_ORDER && Buddy(i, n) < i && SiblingsFree(own, i, o, n)
  }

  ghost predicate SiblingsFree(own: seq<Tile>, i: nat, o: nat, n: nat) {
    forall m: nat :: o <= m <= n ==> IsHead(own, Buddy(i, m), m, Free)
  }

  lemma SiblingOutside(i: nat, o: nat, m: nat)
    requires Aligned(i, o + 1) && o < m
    ensures !Within(Buddy(i, m), i, o + 1)
  {
    Pow2Mono(o + 1, m);
    FlipMoves(i, m);
  }

  /** The growing block itself does not touch the siblings of the levels to come. */
  lemma SiblingsStay(own: seq<Tile>, own': seq<Tile>, i: nat, o: nat, n: nat)
    requires Aligned(i, o + 1) && o < n && |own'| == |own|
    requires forall p :: 0 <= p < |own| && !Within(p, i, o + 1) ==> own'[p] == own[p]
    requires IsHead(own, Buddy(i, o), o, Free)
    ensures SiblingsFree(own, i, o, n) <==> SiblingsFree(own', i, o + 1, n)
  {
    forall m: nat | o < m <= n ensures IsHead(own, Buddy(i, m), m, Free) <==> IsHead(own', Buddy(i, m), m, Free) {
      SiblingOutside(i, o, m);
    }
  }

  /** The release ends in a block that starts lower exactly when the block merges downwards. */
  lemma {:induction false} FinalHeadIff(own: seq<Tile>, i: nat, o: nat)
    requires o <= MAX_ORDER && Aligned(i, o)
    ensures FinalHead(own, i, o) == i <==> !MergesDown(own, i, o)
    decreases MAX_ORDER - o
  {
    BuddyFacts(i, o);
    if o < MAX_ORDER && IsHead(own, Buddy(i, o), o, Free) {
      if Buddy(i, o) < i {
        assert SiblingsFree(own, i, o, o);
      } else {
        var own' := Retile(own, Tile(i, o + 1, Live));
        FinalHeadIff(own', i, o + 1);
        if n: nat :| o <= n < MAX_ORDER && Buddy(i, n) < i && SiblingsFree(own, i, o, n) {
          SiblingsStay(own, own', i, o, n);
        }
        if n: nat :| o + 1 <= n < MAX_ORDER && Buddy(i, n) < i && SiblingsFree(own', i, o + 1, n) {
          SiblingsStay(own, own', i, o, n);
        }
      }
    }
  }

  /**
    A second release of the same address is refused exactly when the first one does not merge the block
    into one that starts lower, which the blocks before the first release decide. Otherwise the stale metadata
    still says "used" and the second release passes the tests.
  */
  lemma DoubleFreeRefusedIff(s: State, i: nat, o: nat)
    requires Inv(s) && IsHead(s.own, i, o, Live)
    ensures o <= MAX_ORDER && i < |s.meta| && s.meta[i].order == o
    ensures !Accepts(Release(s, i), i) <==> !MergesDown(s.own, i, o)
  {
    ReleaseCorrect(s, i, o);
    TileAtHead(s, i);
    MergeUpMeta(s, i, o);
    FinalHeadIff(s.own, i, o);
  }

  /** Two pages, the lower free and the upper live: the upper can be released twice. */
  lemma DoubleFreeExample()
    ensures var s := State([Tile(0, 0, Free), Tile(1, 0, Live)], seq(MAX_ORDER + 1, o => if o == 0 then [0] else []),
                           [PageMeta(0, false), PageMeta(0, true)]);
            Inv(s) && IsHead(s.own, 1, 0, Live) && Accepts(Release(s, 1), 1)
  {
    var s := State([Tile(0, 0, Free), Tile(1, 0, Live)], seq(MAX_ORDER + 1, o => if o == 0 then [0] else []),
                   [PageMeta(0, false), PageMeta(0, true)]);
    forall p | 0 <= p < |s.own| ensures TileAt(s.own, p) {
      AlignedIffLowBits(p, 0);
    }
    forall o | 0 <= o <= MAX_ORDER ensures ListAgrees(s.own, s.lists[o], o) {
    }
    assert Buddy(1, 0) == 0 && SiblingsFree(s.own, 1, 0, 0);
    DoubleFreeRefusedIff(s, 1, 0);
  }
}
