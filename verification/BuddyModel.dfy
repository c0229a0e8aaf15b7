/**
  The buddy allocator of kernel/src/mem.rs as a value: free lists, page metadata and the
  partition of the managed pages into blocks that the other two are meant to describe.
*/
module BuddyModel {
  import opened Bits
  import opened Common

  const MAX_ORDER: nat := 12
  /** `u8::MAX`, the order that `carve` writes for a block it keeps out of the lists. */
  const RESERVED_ORDER: nat := 255

  datatype Kind = Free | Live | Reserved

  /** One block: `1 << order` pages starting at page `head`. */
  datatype Tile = Tile(head: nat, order: nat, kind: Kind)

  datatype PageMeta = PageMeta(order: nat, used: bool)

  /**
    `own[p]` is the block that holds page `p`; it is bookkeeping of the proof. `lists[o]` are the
    heads on the free list of order `o`, first to last. `meta` covers the padded page range.
  */
  datatype State = State(own: seq<Tile>, lists: seq<seq<nat>>, meta: seq<PageMeta>)

  // ----- What a consistent state is -----

  ghost predicate TileAt(own: seq<Tile>, p: nat)
    requires p < |own|
  {
    var t := own[p];
    && t.order <= MAX_ORDER
    && Aligned(t.head, t.order)
    && Within(p, t.head, t.order)
    && t.head + Pow2(t.order) <= |own|
    && forall q :: Within(q, t.head, t.order) ==> own[q] == t
  }

  /** Every page is in exactly one block and blocks are aligned to their size. */
  ghost predicate Tiled(own: seq<Tile>) {
    forall p :: 0 <= p < |own| ==> TileAt(own, p)
  }

  ghost predicate Describes(m: PageMeta, t: Tile) {
    match t.kind
    case Free => !m.used && m.order == t.order
    case Live => m.used && m.order == t.order
    case Reserved => m.used
  }

  ghost predicate IsHead(own: seq<Tile>, p: int, o: nat, k: Kind) {
    0 <= p < |own| && own[p] == Tile(p, o, k)
  }

  /** Metadata of every block head, except possibly `hand`, describes its block. */
  ghost predicate MetaAgrees(s: State, hand: int) {
    && |s.own| <= |s.meta|
    && (forall p :: 0 <= p < |s.own| && p != hand && s.own[p].head == p ==> Describes(s.meta[p], s.own[p]))
  }

  /** Padding pages behind the managed range are marked used for ever. */
  ghost predicate PaddingUsed(s: State) {
    forall p :: |s.own| <= p < |s.meta| ==> s.meta[p].used
  }

  /** The list of order `o` holds the free blocks of order `o`, each once. */
  ghost predicate ListAgrees(own: seq<Tile>, l: seq<nat>, o: nat) {
    && NoDup(l)
    && (forall p :: p in l ==> IsHead(own, p, o, Free))
    && (forall p :: IsHead(own, p, o, Free) ==> p in l)
  }

  ghost predicate ListsAgree(own: seq<Tile>, lists: seq<seq<nat>>) {
    && |lists| == MAX_ORDER + 1
    && forall o :: 0 <= o <= MAX_ORDER ==> ListAgrees(own, lists[o], o)
  }

  ghost predicate InvBut(s: State, hand: int) {
    Tiled(s.own) && MetaAgrees(s, hand) && ListsAgree(s.own, s.lists)
  }

  ghost predicate Inv(s: State) {
    InvBut(s, -1) && PaddingUsed(s)
  }

  /** No two sibling blocks below the maximum order are both free. */
  ghost predicate Coalesced(own: seq<Tile>) {
    forall p: nat, o: nat :: IsHead(own, p, o, Free) && o < MAX_ORDER ==>
      Buddy(p, o) >= |own| || own[Buddy(p, o)] != Tile(Buddy(p, o), o, Free)
  }

  ghost predicate SameBlock(own: seq<Tile>, p: nat, q: nat) {
    p < |own| && q < |own| && own[p] == own[q]
  }

  /** No two sibling blocks that lie in one block of the partition `base` are both free. */
  ghost predicate CoalescedIn(base: seq<Tile>, own: seq<Tile>) {
    forall p: nat, o: nat :: IsHead(own, p, o, Free) && o < MAX_ORDER && SameBlock(base, p, Buddy(p, o)) ==>
      !IsHead(own, Buddy(p, o), o, Free)
  }

  // ----- Elementary steps -----

  /** Pages `head .. head + 1<<order` become the one block `t`. */
  function Retile(own: seq<Tile>, t: Tile): (r: seq<Tile>)
    ensures |r| == |own|
    ensures forall p :: 0 <= p < |own| ==> r[p] == if Within(p, t.head, t.order) then t else own[p]
  {
    seq(|own|, p requires 0 <= p < |own| => if t.head <= p < t.head + Pow2(t.order) then t else own[p])
  }

  /** Repartitioning the pages of one block, or of two siblings, leaves all other blocks alone. */
  lemma TiledOutside(own: seq<Tile>, r: seq<Tile>, i: nat, o: nat)
    requires Tiled(own) && |r| == |own|
    requires forall p :: 0 <= p < |own| && !Within(p, i, o) ==> r[p] == own[p] && !Within(own[p].head, i, o)
    requires forall p :: 0 <= p < |own| && !Within(p, i, o) && own[p].head < i ==> own[p].head + Pow2(own[p].order) <= i
    ensures forall p :: 0 <= p < |r| && !Within(p, i, o) ==> TileAt(r, p)
  {
    forall p | 0 <= p < |r| && !Within(p, i, o) ensures TileAt(r, p) {
      assert TileAt(own, p);
      var u := own[p];
      forall q | Within(q, u.head, u.order) ensures r[q] == u {
        assert own[q] == u;
      }
    }
  }

  /** Every block outside an aligned block-sized region that is a union of blocks is disjoint from it. */
  lemma RegionClosed(own: seq<Tile>, i: nat, o: nat)
    requires Tiled(own) && Aligned(i, o) && i + Pow2(o) <= |own|
    requires forall p :: Within(p, i, o) ==> own[p].order <= o
    ensures forall p :: 0 <= p < |own| && !Within(p, i, o) ==>
              !Within(own[p].head, i, o) && (own[p].head < i ==> own[p].head + Pow2(own[p].order) <= i)
  {
    forall p | 0 <= p < |own| && !Within(p, i, o)
      ensures !Within(own[p].head, i, o) && (own[p].head < i ==> own[p].head + Pow2(own[p].order) <= i)
    {
      assert TileAt(own, p);
      var u := own[p];
      if Within(u.head, i, o) {
        Nested(u.head, u.head, u.order, i, o);
      } else if u.head < i < u.head + Pow2(u.order) {
        assert own[i] == u;
        Nested(i, u.head, u.order, i, o);
      }
    }
  }

  /** An aligned union of blocks may become one block. */
  lemma RetileOver(own: seq<Tile>, i: nat, o: nat, k: Kind)
    requires Tiled(own) && Aligned(i, o) && o <= MAX_ORDER && i + Pow2(o) <= |own|
    requires forall p :: Within(p, i, o) ==> own[p].order <= o
    ensures Tiled(Retile(own, Tile(i, o, k)))
  {
    RegionClosed(own, i, o);
    TiledOutside(own, Retile(own, Tile(i, o, k)), i, o);
  }

  /** The tiles after the upper half of a block has been split off. */
  function SplitTiles(own: seq<Tile>, i: nat, c: nat): (r: seq<Tile>)
    ensures |r| == |own|
    ensures forall p :: 0 <= p < |own| ==>
              r[p] == if Within(p, i, c) then Tile(i, c, Live)
                      else if Within(p, i + Pow2(c), c) then Tile(i + Pow2(c), c, Free) else own[p]
  {
    Retile(Retile(own, Tile(i, c, Live)), Tile(i + Pow2(c), c, Free))
  }

  lemma RetileSplit(own: seq<Tile>, i: nat, c: nat, k: Kind)
    requires Tiled(own) && IsHead(own, i, c + 1, k)
    ensures Tiled(SplitTiles(own, i, c))
    ensures Aligned(i, c) && Aligned(i + Pow2(c), c)
    ensures i + Pow2(c) + Pow2(c) <= |own|
  {
    var j := i + Pow2(c);
    var r := SplitTiles(own, i, c);
    assert TileAt(own, i);
    assert Pow2(c + 1) == Pow2(c) + Pow2(c);
    AlignedDown(i, c, c + 1);
    AlignedStep(i, c);
    RegionClosed(own, i, c + 1);
    TiledOutside(own, r, i, c + 1);
    forall p | 0 <= p < |r| ensures TileAt(r, p) {
      if Within(p, i, c) {
      } else if Within(p, j, c) {
      } else {
        assert !Within(p, i, c + 1);
      }
    }
  }

  /** Two sibling blocks become their parent. */
  lemma RetileMerge(own: seq<Tile>, i: nat, o: nat, k: Kind, kb: Kind, k': Kind)
    requires o < MAX_ORDER && Tiled(own) && IsHead(own, i, o, k) && IsHead(own, Buddy(i, o), o, kb)
    ensures Tiled(Retile(own, Tile(Lower(i, o), o + 1, k')))
    ensures Lower(i, o) + Pow2(o + 1) <= |own|
  {
    var lo, b := Lower(i, o), Buddy(i, o);
    assert TileAt(own, i) && TileAt(own, b);
    BuddyFacts(i, o);
    assert Pow2(o + 1) == Pow2(o) + Pow2(o);
    forall p | Within(p, lo, o + 1) ensures own[p].order <= o + 1 {
      if Within(p, i, o) {
      } else {
        assert Within(p, b, o);
      }
    }
    RetileOver(own, lo, o + 1, k');
  }

  /** The sibling of a block always starts a block, one of at most the same order. */
  lemma BuddyIsHead(own: seq<Tile>, i: nat, o: nat, k: Kind)
    requires Tiled(own) && IsHead(own, i, o, k) && Buddy(i, o) < |own|
    ensures own[Buddy(i, o)].head == Buddy(i, o) && own[Buddy(i, o)].order <= o
  {
    var b := Buddy(i, o);
    BuddyFacts(i, o);
    assert TileAt(own, i) && TileAt(own, b);
    var t := own[b];
    if t.order > o {
      var lo := Lower(i, o);
      assert Within(b, lo, o + 1);
      Nested(b, lo, o + 1, t.head, t.order);
      assert false;
    } else {
      Nested(b, t.head, t.order, b, o);
      AlignedDown(b, t.order, o);
      SameOrderSame(b, t.head, b, t.order);
    }
  }

  // ----- A block in hand: taken off its list, or given back but not yet listed -----

  ghost predicate InHand(s: State, i: nat, o: nat) {
    var consistent := InvBut(s, i);
    consistent && IsHead(s.own, i, o, Live)
  }

  function Push(s: State, i: nat, o: nat): (r: State)
    requires o < |s.lists| && i < |s.meta|
  {
    s.(lists := s.lists[o := [i] + s.lists[o]], meta := s.meta[i := PageMeta(o, false)])
  }

  function Pop(s: State, o: nat): (r: State)
    requires o < |s.lists| && s.lists[o] != []
  {
    s.(own := Retile(s.own, Tile(s.lists[o][0], o, Live)), lists := s.lists[o := s.lists[o][1..]])
  }

  /** Writes a head's metadata when the block goes to the caller. */
  function Mark(s: State, i: nat, o: nat): (r: State)
    requires i < |s.meta|
  {
    s.(meta := s.meta[i := PageMeta(o, true)])
  }

  /** Half of the block in hand goes to the list below. */
  function SplitOne(s: State, i: nat, c: nat): (r: State)
    requires c < |s.lists| && i + Pow2(c) < |s.meta|
  {
    Push(s.(own := SplitTiles(s.own, i, c)), i + Pow2(c), c)
  }

  /** The block in hand takes in its free sibling. */
  function MergeOne(s: State, i: nat, o: nat): (r: State)
    requires o < |s.lists|
  {
    s.(own := Retile(s.own, Tile(Lower(i, o), o + 1, Live)), lists := s.lists[o := Without(s.lists[o], Buddy(i, o))])
  }

  /** The block in hand goes to its list. */
  function Return(s: State, i: nat, o: nat): (r: State)
    requires o < |s.lists| && i < |s.meta|
  {
    Push(s.(own := Retile(s.own, Tile(i, o, Free))), i, o)
  }

  lemma PopInHand(s: State, o: nat)
    requires InvBut(s, -1) && o <= MAX_ORDER && s.lists[o] != []
    ensures InHand(Pop(s, o), s.lists[o][0], o)
    ensures IsHead(s.own, s.lists[o][0], o, Free)
  {
    var i := s.lists[o][0];
    var r := Pop(s, o);
    assert ListAgrees(s.own, s.lists[o], o);
    assert i in s.lists[o];
    assert TileAt(s.own, i);
    RetileOver(s.own, i, o, Live);
    assert forall y :: y in s.lists[o] <==> y == i || y in s.lists[o][1..];
    forall n | 0 <= n <= MAX_ORDER ensures ListAgrees(r.own, r.lists[n], n) {
      assert ListAgrees(s.own, s.lists[n], n);
    }
  }

  lemma SplitLists(s: State, i: nat, c: nat, n: nat)
    requires InHand(s, i, c + 1) && c < MAX_ORDER && n <= MAX_ORDER
    requires i + Pow2(c) + Pow2(c) <= |s.own|
    requires forall p :: i <= p < i + Pow2(c) + Pow2(c) ==> s.own[p] == s.own[i]
    ensures ListAgrees(SplitOne(s, i, c).own, SplitOne(s, i, c).lists[n], n)
  {
    var j := i + Pow2(c);
    var r := SplitOne(s, i, c);
    assert ListAgrees(s.own, s.lists[n], n);
    assert j !in s.lists[n];
    assert forall p :: IsHead(r.own, p, n, Free) <==> IsHead(s.own, p, n, Free) || (p == j && n == c);
  }

  lemma SplitInHand(s: State, i: nat, c: nat)
    requires InHand(s, i, c + 1) && c < MAX_ORDER
    ensures i + Pow2(c) < |s.own| && InHand(SplitOne(s, i, c), i, c)
  {
    RetileSplit(s.own, i, c, Live);
    var r := SplitOne(s, i, c);
    assert TileAt(s.own, i);
    assert Pow2(c + 1) == Pow2(c) + Pow2(c);
    forall n | 0 <= n <= MAX_ORDER ensures ListAgrees(r.own, r.lists[n], n) {
      SplitLists(s, i, c, n);
    }
    assert MetaAgrees(r, i);
  }

  lemma MergeTiles(own: seq<Tile>, i: nat, o: nat)
    requires o < MAX_ORDER && Tiled(own) && IsHead(own, i, o, Live) && IsHead(own, Buddy(i, o), o, Free)
    ensures var m := Retile(own, Tile(Lower(i, o), o + 1, Live));
            Tiled(m) && IsHead(m, Lower(i, o), o + 1, Live)
    ensures forall p :: Within(p, Lower(i, o), o + 1) <==> Within(p, i, o) || Within(p, Buddy(i, o), o)
    ensures forall p :: Within(p, Buddy(i, o), o) ==> 0 <= p < |own| && own[p].kind == Free
  {
    RetileMerge(own, i, o, Live, Free, Live);
    assert TileAt(own, Buddy(i, o)) && TileAt(own, i);
    BuddyFacts(i, o);
    assert Pow2(o + 1) == Pow2(o) + Pow2(o);
  }

  lemma MergeLists(s: State, i: nat, o: nat, n: nat)
    requires InHand(s, i, o) && o < MAX_ORDER && IsHead(s.own, Buddy(i, o), o, Free) && n <= MAX_ORDER
    ensures ListAgrees(MergeOne(s, i, o).own, MergeOne(s, i, o).lists[n], n)
  {
    var b := Buddy(i, o);
    var r := MergeOne(s, i, o);
    MergeTiles(s.own, i, o);
    assert ListAgrees(s.own, s.lists[n], n) && ListAgrees(s.own, s.lists[o], o);
    WithoutFacts(s.lists[o], b);
    forall p ensures IsHead(r.own, p, n, Free) <==> IsHead(s.own, p, n, Free) && p != b {
      if IsHead(s.own, p, n, Free) && p != b {
        assert TileAt(s.own, b) && TileAt(s.own, i);
        assert !Within(p, Lower(i, o), o + 1);
      }
    }
    assert n != o ==> b !in s.lists[n];
  }

  lemma MergeInHand(s: State, i: nat, o: nat)
    requires InHand(s, i, o) && o < MAX_ORDER && IsHead(s.own, Buddy(i, o), o, Free)
    ensures InHand(MergeOne(s, i, o), Lower(i, o), o + 1)
  {
    var r := MergeOne(s, i, o);
    MergeTiles(s.own, i, o);
    forall n | 0 <= n <= MAX_ORDER ensures ListAgrees(r.own, r.lists[n], n) {
      MergeLists(s, i, o, n);
    }
  }

  lemma ReturnInHand(s: State, i: nat, o: nat)
    requires InHand(s, i, o) && o <= MAX_ORDER
    ensures InvBut(Return(s, i, o), -1)
  {
    var r := Return(s, i, o);
    assert TileAt(s.own, i);
    RetileOver(s.own, i, o, Free);
    forall n | 0 <= n <= MAX_ORDER ensures ListAgrees(r.own, r.lists[n], n) {
      assert ListAgrees(s.own, s.lists[n], n);
      assert i !in s.lists[n];
    }
  }
}
