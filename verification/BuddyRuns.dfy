/** Allocation and release as functions on allocator states, and what holds over all their runs. */
module BuddyRuns {
  import opened Bits
  import opened Common
  import opened BuddyModel

  /** The lowest order from `o` up whose list is not empty; `MAX_ORDER + 1` if there is none. */
  function FirstFit(lists: seq<seq<nat>>, o: nat): (r: nat)
    requires |lists| == MAX_ORDER + 1 && o <= MAX_ORDER + 1
    ensures o <= r <= MAX_ORDER + 1
    ensures r <= MAX_ORDER ==> lists[r] != []
    ensures forall n :: o <= n < r ==> lists[n] == []
    decreases MAX_ORDER + 1 - o
  {
    if o > MAX_ORDER || lists[o] != [] then o else FirstFit(lists, o + 1)
  }

  function SplitDown(s: State, i: nat, cur: nat, order: nat): (r: State)
    requires order <= cur <= MAX_ORDER && InHand(s, i, cur)
    decreases cur
  {
    if cur == order then Mark(s, i, order)
    else
      SplitInHand(s, i, cur - 1);
      SplitDown(SplitOne(s, i, cur - 1), i, cur - 1, order)
  }

  /** `alloc`: the head of the block found, if any, and the state after. */
  function Alloc(s: State, order: nat): (r: (Option<nat>, State))
    requires Inv(s)
  {
    if order > MAX_ORDER then (None, s)
    else
      var o := FirstFit(s.lists, order);
      if o > MAX_ORDER then (None, s)
      else
        PopInHand(s, o);
        (Some(s.lists[o][0]), SplitDown(Pop(s, o), s.lists[o][0], o, order))
  }

  /** The test in the merge loop of `free`, on the sibling's metadata. */
  predicate CanMerge(s: State, i: nat, o: nat) {
    && o < MAX_ORDER
    && Buddy(i, o) + Pow2(o) <= |s.meta|
    && !s.meta[Buddy(i, o)].used
    && s.meta[Buddy(i, o)].order == o
  }

  /** Metadata alone decides correctly whether the sibling is a free block of the same order. */
  lemma CanMergeIff(s: State, i: nat, o: nat)
    requires InHand(s, i, o) && PaddingUsed(s)
    ensures CanMerge(s, i, o) <==> o < MAX_ORDER && IsHead(s.own, Buddy(i, o), o, Free)
  {
    var b := Buddy(i, o);
    assert TileAt(s.own, i);
    BuddyFacts(i, o);
    if b < |s.own| {
      BuddyIsHead(s.own, i, o, Live);
      assert TileAt(s.own, b);
      assert Describes(s.meta[b], s.own[b]);
    }
  }

  function MergeUp(s: State, i: nat, o: nat): (r: State)
    requires o <= MAX_ORDER && InHand(s, i, o) && PaddingUsed(s)
    decreases MAX_ORDER - o
  {
    CanMergeIff(s, i, o);
    if CanMerge(s, i, o) then
      MergeInHand(s, i, o);
      MergeUp(MergeOne(s, i, o), Lower(i, o), o + 1)
    else Return(s, i, o)
  }

  /** The tests `free` makes before it touches anything. */
  ghost predicate Accepts(s: State, i: nat) {
    i < |s.own| && i < |s.meta| && s.meta[i].order <= MAX_ORDER && s.meta[i].used && Aligned(i, s.meta[i].order)
  }

  /** `free` of a live block. */
  function Release(s: State, i: nat): (r: State)
    requires Inv(s) && i < |s.own| && IsHead(s.own, i, s.meta[i].order, Live)
  {
    TileAtHead(s, i);
    MergeUp(s, i, s.meta[i].order)
  }

  lemma TileAtHead(s: State, i: nat)
    requires Inv(s) && i < |s.own| && s.own[i].head == i
    ensures s.own[i].order <= MAX_ORDER && Aligned(i, s.own[i].order)
    ensures Describes(s.meta[i], s.own[i])
  {
    assert TileAt(s.own, i);
  }

  // ----- What each operation does -----

  /**
    The pages of block `(i, o)` go from kind `a` to kind `b`; no other page changes kind, and no
    live or reserved block outside it changes at all.
  */
  ghost predicate Moves(own: seq<Tile>, own': seq<Tile>, i: nat, o: nat, a: Kind, b: Kind) {
    && |own'| == |own|
    && i + Pow2(o) <= |own|
    && (forall p :: Within(p, i, o) ==> own[p].kind == a && own'[p].kind == b)
    && (forall p :: 0 <= p < |own| && !Within(p, i, o) ==>
          own'[p].kind == own[p].kind && (own[p].kind != Free ==> own'[p] == own[p]))
  }

  // The partition evolves by itself: these follow it without lists and metadata.

  function SplitOwn(own: seq<Tile>, i: nat, cur: nat, order: nat): (r: seq<Tile>)
    requires order <= cur
    ensures |r| == |own|
    decreases cur
  {
    if cur == order then own else SplitOwn(SplitTiles(own, i, cur - 1), i, cur - 1, order)
  }

  ghost function MergeOwn(own: seq<Tile>, i: nat, o: nat): (r: seq<Tile>)
    requires o <= MAX_ORDER
    ensures |r| == |own|
    decreases MAX_ORDER - o
  {
    if o < MAX_ORDER && IsHead(own, Buddy(i, o), o, Free)
    then MergeOwn(Retile(own, Tile(Lower(i, o), o + 1, Live)), Lower(i, o), o + 1)
    else Retile(own, Tile(i, o, Free))
  }

  lemma {:induction false} SplitOwnMoves(own: seq<Tile>, i: nat, cur: nat, order: nat)
    requires order <= cur <= MAX_ORDER && Tiled(own) && IsHead(own, i, cur, Live)
    ensures var r := SplitOwn(own, i, cur, order);
            && IsHead(r, i, order, Live) && i + Pow2(order) <= i + Pow2(cur) <= |own|
            && (forall p :: Within(p, i, order) ==> r[p].kind == Live)
            && (forall p :: 0 <= p < |own| && !Within(p, i, cur) ==> r[p] == own[p])
            && (forall p :: Within(p, i, cur) && !Within(p, i, order) ==> r[p].kind == Free)
    decreases cur
  {
    assert TileAt(own, i);
    if cur > order {
      var c := cur - 1;
      RetileSplit(own, i, c, Live);
      assert Pow2(cur) == Pow2(c) + Pow2(c);
      SplitOwnMoves(SplitTiles(own, i, c), i, c, order);
    }
  }

  /** Swallowing the free sibling first changes nothing about the move. */
  lemma MergeStepMoves(own: seq<Tile>, r: seq<Tile>, i: nat, o: nat)
    requires Tiled(own) && IsHead(own, i, o, Live) && IsHead(own, Buddy(i, o), o, Free)
    requires Moves(Retile(own, Tile(Lower(i, o), o + 1, Live)), r, Lower(i, o), o + 1, Live, Free)
    ensures Moves(own, r, i, o, Live, Free)
  {
    var lo, b := Lower(i, o), Buddy(i, o);
    var m := Retile(own, Tile(lo, o + 1, Live));
    assert TileAt(own, i) && TileAt(own, b);
    BuddyFacts(i, o);
    forall p | 0 <= p < |own| && !Within(p, i, o)
      ensures r[p].kind == own[p].kind && (own[p].kind != Free ==> r[p] == own[p])
    {
      if Within(p, b, o) {
        assert Within(p, lo, o + 1);
      } else {
        assert !Within(p, lo, o + 1);
        assert m[p] == own[p];
      }
    }
  }

  lemma {:induction false} MergeOwnMoves(own: seq<Tile>, i: nat, o: nat)
    requires o <= MAX_ORDER && Tiled(own) && IsHead(own, i, o, Live)
    ensures Moves(own, MergeOwn(own, i, o), i, o, Live, Free)
    decreases MAX_ORDER - o
  {
    if o < MAX_ORDER && IsHead(own, Buddy(i, o), o, Free) {
      var m := Retile(own, Tile(Lower(i, o), o + 1, Live));
      MergeTiles(own, i, o);
      MergeOwnMoves(m, Lower(i, o), o + 1);
      assert MergeOwn(own, i, o) == MergeOwn(m, Lower(i, o), o + 1);
      MergeStepMoves(own, MergeOwn(own, i, o), i, o);
    } else {
      assert TileAt(own, i);
      assert MergeOwn(own, i, o) == Retile(own, Tile(i, o, Free));
    }
  }

  /** Coalescing survives when no free block appears except `(i, o)`, whose sibling is not free. */
  lemma StillCoalesced(base: seq<Tile>, own: seq<Tile>, r: seq<Tile>, i: nat, o: nat)
    requires CoalescedIn(base, own) && Tiled(r) && Aligned(i, o)
    requires forall p: nat, n: nat :: IsHead(r, p, n, Free) && !(p == i && n == o) ==> IsHead(own, p, n, Free)
    requires o < MAX_ORDER && IsHead(r, i, o, Free) ==> !IsHead(r, Buddy(i, o), o, Free)
    ensures CoalescedIn(base, r)
  {
    forall p: nat, n: nat | IsHead(r, p, n, Free) && n < MAX_ORDER && SameBlock(base, p, Buddy(p, n))
      ensures !IsHead(r, Buddy(p, n), n, Free)
    {
      assert TileAt(r, p);
      BuddyFacts(p, n);
      if p == i && n == o {
      } else if !(Buddy(p, n) == i && n == o) {
        assert !IsHead(own, Buddy(p, n), n, Free);
      }
    }
  }

  lemma {:induction false} SplitOwnCoalesced(base: seq<Tile>, own: seq<Tile>, i: nat, cur: nat, order: nat)
    requires order <= cur <= MAX_ORDER && Tiled(own) && IsHead(own, i, cur, Live) && CoalescedIn(base, own)
    ensures CoalescedIn(base, SplitOwn(own, i, cur, order))
    decreases cur
  {
    if cur == order {
      assert SplitOwn(own, i, cur, order) == own;
    } else {
      var m := SplitTiles(own, i, cur - 1);
      SplitTilesCoalesced(base, own, i, cur - 1);
      SplitOwnCoalesced(base, m, i, cur - 1, order);
      assert SplitOwn(own, i, cur, order) == SplitOwn(m, i, cur - 1, order);
    }
  }

  lemma SplitTilesCoalesced(base: seq<Tile>, own: seq<Tile>, i: nat, c: nat)
    requires c < MAX_ORDER && Tiled(own) && IsHead(own, i, c + 1, Live) && CoalescedIn(base, own)
    ensures var r := SplitTiles(own, i, c); Tiled(r) && IsHead(r, i, c, Live) && CoalescedIn(base, r)
  {
    assert TileAt(own, i);
    RetileSplit(own, i, c, Live);
    UpperBuddy(i, c);
    StillCoalesced(base, own, SplitTiles(own, i, c), i + Pow2(c), c);
  }

  lemma MergedCoalesced(base: seq<Tile>, own: seq<Tile>, i: nat, o: nat)
    requires o < MAX_ORDER && Tiled(own) && IsHead(own, i, o, Live) && IsHead(own, Buddy(i, o), o, Free)
    requires CoalescedIn(base, own)
    ensures CoalescedIn(base, Retile(own, Tile(Lower(i, o), o + 1, Live)))
  {
    var m := Retile(own, Tile(Lower(i, o), o + 1, Live));
    forall p: nat, n: nat | IsHead(m, p, n, Free) && n < MAX_ORDER && SameBlock(base, p, Buddy(p, n))
      ensures !IsHead(m, Buddy(p, n), n, Free)
    {
      assert IsHead(own, p, n, Free);
      assert !IsHead(own, Buddy(p, n), n, Free);
    }
  }

  lemma {:induction false} MergeOwnCoalesced(base: seq<Tile>, own: seq<Tile>, i: nat, o: nat)
    requires o <= MAX_ORDER && Tiled(own) && IsHead(own, i, o, Live) && CoalescedIn(base, own)
    ensures CoalescedIn(base, MergeOwn(own, i, o))
    decreases MAX_ORDER - o
  {
    assert TileAt(own, i);
    if o < MAX_ORDER && IsHead(own, Buddy(i, o), o, Free) {
      var m := Retile(own, Tile(Lower(i, o), o + 1, Live));
      MergeTiles(own, i, o);
      MergedCoalesced(base, own, i, o);
      MergeOwnCoalesced(base, m, Lower(i, o), o + 1);
      assert MergeOwn(own, i, o) == MergeOwn(m, Lower(i, o), o + 1);
    } else {
      var m := Retile(own, Tile(i, o, Free));
      BuddyFacts(i, o);
      RetileOver(own, i, o, Free);
      StillCoalesced(base, own, m, i, o);
      assert MergeOwn(own, i, o) == m;
    }
  }

  // Lists and metadata follow the partition.

  lemma {:induction false} SplitDownInv(s: State, i: nat, cur: nat, order: nat)
    requires order <= cur <= MAX_ORDER && InHand(s, i, cur) && PaddingUsed(s)
    ensures Inv(SplitDown(s, i, cur, order))
    ensures SplitDown(s, i, cur, order).own == SplitOwn(s.own, i, cur, order)
    decreases cur
  {
    if cur > order {
      SplitInHand(s, i, cur - 1);
      SplitDownInv(SplitOne(s, i, cur - 1), i, cur - 1, order);
    }
  }

  lemma {:induction false} MergeUpInv(s: State, i: nat, o: nat)
    requires o <= MAX_ORDER && InHand(s, i, o) && PaddingUsed(s)
    ensures Inv(MergeUp(s, i, o)) && MergeUp(s, i, o).own == MergeOwn(s.own, i, o)
    decreases MAX_ORDER - o
  {
    CanMergeIff(s, i, o);
    if CanMerge(s, i, o) {
      MergeInHand(s, i, o);
      MergeUpInv(MergeOne(s, i, o), Lower(i, o), o + 1);
    } else {
      ReturnInHand(s, i, o);
    }
  }

  /** What `alloc` gives: a block of that order, aligned, all of it free before and live after. */
  lemma AllocCorrect(s: State, order: nat)
    requires Inv(s)
    ensures var (r, s') := Alloc(s, order);
            && Inv(s')
            && (r.None? ==> s' == s)
            && (r.Some? ==> order <= MAX_ORDER && IsHead(s'.own, r.value, order, Live)
                            && Aligned(r.value, order) && Moves(s.own, s'.own, r.value, order, Free, Live))
  {
    if order <= MAX_ORDER {
      var o := FirstFit(s.lists, order);
      if o <= MAX_ORDER {
        PopInHand(s, o);
        var i := s.lists[o][0];
        var m := Pop(s, o);
        SplitDownInv(m, i, o, order);
        AllocMoves(s.own, m.own, i, o, order);
      }
    }
  }

  lemma AllocMoves(own: seq<Tile>, m: seq<Tile>, i: nat, o: nat, order: nat)
    requires order <= o <= MAX_ORDER && Tiled(own) && IsHead(own, i, o, Free)
    requires m == Retile(own, Tile(i, o, Live)) && Tiled(m)
    ensures var r := SplitOwn(m, i, o, order);
            && IsHead(r, i, order, Live) && Aligned(i, order)
            && Moves(own, r, i, order, Free, Live)
  {
    assert TileAt(own, i);
    AlignedDown(i, order, o);
    SplitOwnMoves(m, i, o, order);
  }

  /** `alloc` puts no free siblings side by side. */
  lemma AllocCoalesced(base: seq<Tile>, s: State, order: nat)
    requires Inv(s) && CoalescedIn(base, s.own)
    ensures CoalescedIn(base, Alloc(s, order).1.own)
  {
    if order <= MAX_ORDER {
      var o := FirstFit(s.lists, order);
      if o <= MAX_ORDER {
        PopInHand(s, o);
        var i := s.lists[o][0];
        var m := Pop(s, o);
        SplitDownInv(m, i, o, order);
        assert TileAt(s.own, i);
        StillCoalesced(base, s.own, m.own, i, o);
        SplitOwnCoalesced(base, m.own, i, o, order);
      }
    }
  }

  /** What `free` of a live block gives: its pages are free, everything else is as it was. */
  lemma ReleaseCorrect(s: State, i: nat, o: nat)
    requires Inv(s) && IsHead(s.own, i, o, Live)
    ensures s.meta[i].order == o && Accepts(s, i)
    ensures var s' := Release(s, i);
            Inv(s') && Moves(s.own, s'.own, i, o, Live, Free)
  {
    TileAtHead(s, i);
    MergeUpInv(s, i, o);
    MergeOwnMoves(s.own, i, o);
  }

  /** Neither does `free`. */
  lemma ReleaseCoalesced(base: seq<Tile>, s: State, i: nat, o: nat)
    requires Inv(s) && IsHead(s.own, i, o, Live) && CoalescedIn(base, s.own)
    ensures s.meta[i].order == o && CoalescedIn(base, Release(s, i).own)
  {
    TileAtHead(s, i);
    MergeUpInv(s, i, o);
    MergeOwnCoalesced(base, s.own, i, o);
  }
}
