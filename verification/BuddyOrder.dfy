/** Which block `alloc` hands out, and what `alloc` and `free` do to the order of the free lists. */
module BuddyOrder {
  import opened Common
  import opened Bits
  import opened BuddyModel
  import opened BuddyRuns

  /** The lists after the block at `i` has been split from order `cur` down to `order`: each upper half is in front. */
  ghost predicate Halved(l: seq<seq<nat>>, r: seq<seq<nat>>, i: nat, cur: nat, order: nat) {
    && |r| == |l|
    && forall k :: 0 <= k < |l| ==> r[k] == (if order <= k < cur then [i + Pow2(k)] else []) + l[k]
  }

  lemma HalvedMore(l: seq<seq<nat>>, m: seq<seq<nat>>, r: seq<seq<nat>>, i: nat, cur: nat, order: nat)
    requires order < cur <= |l| && m == l[cur - 1 := [i + Pow2(cur - 1)] + l[cur - 1]]
    requires Halved(m, r, i, cur - 1, order)
    ensures Halved(l, r, i, cur, order)
  {
  }

  lemma {:induction false} SplitDownLists(s: State, i: nat, cur: nat, order: nat)
    requires order <= cur <= MAX_ORDER && InHand(s, i, cur)
    ensures Halved(s.lists, SplitDown(s, i, cur, order).lists, i, cur, order)
    decreases cur
  {
    if cur > order {
      SplitInHand(s, i, cur - 1);
      var m := SplitOne(s, i, cur - 1);
      SplitDownLists(m, i, cur - 1, order);
      HalvedMore(s.lists, m.lists, SplitDown(m, i, cur - 1, order).lists, i, cur, order);
    }
  }

  /** The lists after an allocation from the list of order `o`. */
  ghost predicate Taken(l: seq<seq<nat>>, r: seq<seq<nat>>, i: nat, o: nat, order: nat) {
    && |r| == |l| && o < |l| && l[o] != [] && i == l[o][0]
    && forall k :: 0 <= k < |l| ==>
         r[k] == if k == o then l[o][1..] else if order <= k < o then [i + Pow2(k)] else l[k]
  }

  lemma HalvedTaken(l: seq<seq<nat>>, r: seq<seq<nat>>, i: nat, o: nat, order: nat)
    requires o < |l| && l[o] != [] && i == l[o][0] && forall n :: order <= n < o ==> l[n] == []
    requires Halved(l[o := l[o][1..]], r, i, o, order)
    ensures Taken(l, r, i, o, order)
  {
  }

  /**
    `alloc` takes the first block of the lowest order that has one and is large enough, and hands out its lowest pages.
    The upper half of every split goes to its list, which was empty; no other list changes.
  */
  lemma AllocTakesFirst(s: State, order: nat) returns (o: nat)
    requires Inv(s) && Alloc(s, order).0.Some?
    ensures order <= o < |s.lists| && forall n :: order <= n < o ==> s.lists[n] == []
    ensures Taken(s.lists, Alloc(s, order).1.lists, Alloc(s, order).0.value, o, order)
  {
    o := FirstFit(s.lists, order);
    PopInHand(s, o);
    var i := s.lists[o][0];
    SplitDownLists(Pop(s, o), i, o, order);
    HalvedTaken(s.lists, SplitDown(Pop(s, o), i, o, order).lists, i, o, order);
  }

  /** One free block that lies in the block of order `top` at `head` is gone; the others are in their order. */
  ghost predicate Drops(l: seq<nat>, r: seq<nat>, head: nat, top: nat) {
    exists x: nat :: x in l && head <= x < head + Pow2(top) && r == Without(l, x)
  }

  /** The lists after a block has been merged from order `o` up to order `top` at `head`. */
  ghost predicate Merged(l: seq<seq<nat>>, r: seq<seq<nat>>, o: nat, head: nat, top: nat) {
    && |r| == |l| && o <= top < |l| && r[top] == [head] + l[top]
    && (forall k :: o <= k < top ==> Drops(l[k], r[k], head, top))
    && forall k :: 0 <= k < |l| && (k < o || k > top) ==> r[k] == l[k]
  }

  lemma MergedMore(l: seq<seq<nat>>, r: seq<seq<nat>>, b: nat, o: nat, head: nat, top: nat)
    requires o < |l| && b in l[o] && head <= b < head + Pow2(top)
    requires Merged(l[o := Without(l[o], b)], r, o + 1, head, top)
    ensures Merged(l, r, o, head, top)
  {
    assert Drops(l[o], r[o], head, top);
  }

  lemma {:induction false} MergeUpLists(s: State, i: nat, o: nat) returns (head: nat, top: nat)
    requires o <= MAX_ORDER && InHand(s, i, o) && PaddingUsed(s) && Aligned(i, o)
    ensures Merged(s.lists, MergeUp(s, i, o).lists, o, head, top)
    ensures head <= i && i + Pow2(o) <= head + Pow2(top)
    decreases MAX_ORDER - o
  {
    CanMergeIff(s, i, o);
    head, top := i, o;
    if CanMerge(s, i, o) {
      MergeInHand(s, i, o);
      BuddyFacts(i, o);
      var m := MergeOne(s, i, o);
      head, top := MergeUpLists(m, Lower(i, o), o + 1);
      MergedMore(s.lists, MergeUp(m, Lower(i, o), o + 1).lists, Buddy(i, o), o, head, top);
    }
  }

  /**
    `free` puts the block it has merged in front of its list, takes one sibling out of every list between, and leaves
    every other list as it was.
  */
  lemma FreeMergesLists(s: State, i: nat, o: nat) returns (head: nat, top: nat)
    requires Inv(s) && IsHead(s.own, i, o, Live)
    ensures s.meta[i].order == o && Merged(s.lists, Release(s, i).lists, o, head, top)
    ensures head <= i && i + Pow2(o) <= head + Pow2(top) && IsHead(Release(s, i).own, head, top, Free)
  {
    TileAtHead(s, i);
    MergeUpInv(s, i, o);
    head, top := MergeUpLists(s, i, o);
    var r := MergeUp(s, i, o);
    assert ListAgrees(r.own, r.lists[top], top);
    assert head in r.lists[top];
  }
}
