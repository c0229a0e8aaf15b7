/**
  Whether the free lists start out without free siblings side by side: exactly when the reservations cut
  no block, and exactly then every run that frees everything restores them.
*/
module BuddyCoalescing {
  import opened Bits
  import opened BuddyModel
  import opened BuddyRuns
  import opened BuddyInit
  import opened BuddyTheorems

  // ----- What `carve` decides -----

  /** Some range reaches into the pages `s` to `e`, and none contains them. */
  ghost predicate Cut(res: seq<Range>, s: nat, e: nat) {
    (exists j :: 0 <= j < |res| && Touches(res[j], s, e)) && forall j :: 0 <= j < |res| ==> !Contains(res[j], s, e)
  }

  /** Every range that reaches into the pages `s` to `e` is, or comes after, one that contains them. */
  ghost predicate Clear(res: seq<Range>, s: nat, e: nat) {
    forall j :: 0 <= j < |res| && Touches(res[j], s, e) ==> exists k :: 0 <= k <= j && Contains(res[k], s, e)
  }

  lemma {:induction false} ScanClear(res: seq<Range>, s: nat, e: nat)
    ensures !Scan(res, s, e).1 <==> Clear(res, s, e)
  {
    if res != [] && !Contains(res[0], s, e) {
      var t := res[1..];
      ScanClear(t, s, e);
      assert forall j :: 0 <= j < |t| ==> t[j] == res[j + 1];
      if Clear(res, s, e) {
        forall j | 0 <= j < |t| && Touches(t[j], s, e) ensures exists k :: 0 <= k <= j && Contains(t[k], s, e) {
          assert Touches(res[j + 1], s, e);
          var k :| 0 <= k <= j + 1 && Contains(res[k], s, e);
          assert Contains(t[k - 1], s, e);
        }
      }
      if Clear(t, s, e) && !Touches(res[0], s, e) {
        forall j | 0 <= j < |res| && Touches(res[j], s, e) ensures exists k :: 0 <= k <= j && Contains(res[k], s, e) {
          assert Touches(t[j - 1], s, e);
          var k :| 0 <= k <= j - 1 && Contains(t[k], s, e);
          assert Contains(res[k + 1], s, e);
        }
      }
    } else if res != [] {
      forall j | 0 <= j < |res| && Touches(res[j], s, e) ensures exists k :: 0 <= k <= j && Contains(res[k], s, e) {
        assert Contains(res[0], s, e);
      }
    }
  }

  lemma ScanCut(res: seq<Range>, s: nat, e: nat)
    requires s < e
    ensures Scan(res, s, e) == (false, true) <==> Cut(res, s, e)
  {
    ScanFacts(res, s, e);
    ScanClear(res, s, e);
    assert Scan(res, s, e).0 <==> exists j :: 0 <= j < |res| && Contains(res[j], s, e);
  }

  /** What is cut stays cut in anything larger. */
  lemma CutGrows(res: seq<Range>, s: nat, e: nat, s': nat, e': nat)
    requires s' <= s < e <= e' && Scan(res, s, e) == (false, true)
    ensures Scan(res, s', e') == (false, true)
  {
    ScanCut(res, s, e);
    ScanCut(res, s', e');
    var j :| 0 <= j < |res| && Touches(res[j], s, e);
    assert Touches(res[j], s', e');
    forall k | 0 <= k < |res| ensures !Contains(res[k], s', e') {
      assert !Contains(res[k], s, e);
    }
  }

  /** `carve` cannot take block `(i, o)` as a whole. */
  ghost predicate Divided(count: nat, res: seq<Range>, i: nat, o: nat) {
    i + Pow2(o) > count || Scan(res, i, i + Pow2(o)) == (false, true)
  }

  /** Block `t` is taken as a whole, and the block it is half of is not. */
  ghost predicate Decided(count: nat, res: seq<Range>, t: Tile, top: nat) {
    && !Divided(count, res, t.head, t.order)
    && (t.kind == Free <==> !Scan(res, t.head, t.head + Pow2(t.order)).1)
    && t.order <= top && Aligned(t.head, t.order)
    && (t.order < top ==> Divided(count, res, Lower(t.head, t.order), t.order + 1))
  }

  lemma CarveWhole(count: nat, i: nat, o: nat, res: seq<Range>)
    requires !Divided(count, res, i, o)
    ensures var k := if Scan(res, i, i + Pow2(o)).1 then Reserved else Free;
            Carve(count, i, o, res, false) == [Tile(i, o, k)]
  {
  }

  lemma CarveDivided(count: nat, i: nat, o: nat, res: seq<Range>, half: nat, mid: nat)
    requires Divided(count, res, i, o) && i < count && (o > 0 ==> half == o - 1 && mid == i + Pow2(half))
    ensures o > 0
    ensures Carve(count, i, o, res, false)
            == Carve(count, i, half, res, false) + Carve(count, mid, half, res, false)
  {
    ScanFacts(res, i, i + Pow2(o));
  }

  lemma HalfParents(i: nat, c: nat)
    requires Aligned(i, c + 1)
    ensures Aligned(i, c) && Aligned(i + Pow2(c), c) && Lower(i, c) == i && Lower(i + Pow2(c), c) == i
  {
    AlignedDown(i, c, c + 1);
    UpperBuddy(i, c);
    BuddyFacts(i + Pow2(c), c);
  }

  lemma HalfDecided(count: nat, res: seq<Range>, i: nat, c: nat, j: nat, t: Tile)
    requires Decided(count, res, t, c) && (t.order == c ==> t.head == j)
    requires Lower(j, c) == i && Divided(count, res, i, c + 1)
    ensures Decided(count, res, t, c + 1)
  {
  }

  lemma {:induction false} CarveDecides(count: nat, i: nat, o: nat, res: seq<Range>, t: Tile)
    requires Aligned(i, o) && t in Carve(count, i, o, res, false)
    ensures Decided(count, res, t, o) && (t.order == o ==> t.head == i)
    decreases o
  {
    if !Divided(count, res, i, o) {
      CarveWhole(count, i, o, res);
    } else {
      var c := if o > 0 then o - 1 else 0;
      var mid := i + Pow2(c);
      CarveDivided(count, i, o, res, c, mid);
      HalfParents(i, c);
      if t in Carve(count, i, c, res, false) {
        CarveDecides(count, i, c, res, t);
        HalfDecided(count, res, i, c, i, t);
      } else {
        CarveDecides(count, mid, c, res, t);
        HalfDecided(count, res, i, c, mid, t);
      }
    }
  }

  lemma {:induction false} CarveAllDecides(count: nat, i: nat, top: nat, res: seq<Range>, t: Tile)
    requires Aligned(i, top) && t in CarveAll(count, i, top, res, false)
    ensures Decided(count, res, t, top)
    decreases if i < count then count - i else 0
  {
    if t in Carve(count, i, top, res, false) {
      CarveDecides(count, i, top, res, t);
    } else {
      AlignedStep(i, top);
      CarveAllDecides(count, i + Pow2(top), top, res, t);
    }
  }

  /** Every block of the carved state is taken as a whole, and what it is half of is not. */
  lemma CarvedDecides(count: nat, padded: nat, res: seq<Range>, p: nat)
    requires count <= padded && p < count
    ensures var own := Carved(count, padded, res, false).own;
            |own| == count && Within(p, own[p].head, own[p].order) && Decided(count, res, own[p], MAX_ORDER)
  {
    CarvedPages(count, padded, res, false);
    ZeroAligned(MAX_ORDER);
    CarveAllDecides(count, 0, MAX_ORDER, res, Carved(count, padded, res, false).own[p]);
  }

  // ----- When the carved state is coalesced -----

  /** A half that is not cut, of a block that is, becomes a block. */
  lemma HalfIsBlock(count: nat, padded: nat, res: seq<Range>, b: nat, n: nat, h: nat)
    requires count <= padded && n < MAX_ORDER && Aligned(b, n + 1) && b + Pow2(n + 1) <= count
    requires Scan(res, b, b + Pow2(n + 1)) == (false, true)
    requires (h == b || h == b + Pow2(n)) && !Scan(res, h, h + Pow2(n)).1
    ensures IsHead(Carved(count, padded, res, false).own, h, n, Free)
  {
    HalfParents(b, n);
    CarvedDecides(count, padded, res, h);
    HalfTile(count, res, b, n, h, Carved(count, padded, res, false).own[h]);
  }

  lemma HalfTile(count: nat, res: seq<Range>, b: nat, n: nat, h: nat, t: Tile)
    requires n < MAX_ORDER && Aligned(b, n + 1) && Aligned(h, n) && b + Pow2(n + 1) <= count
    requires Scan(res, b, b + Pow2(n + 1)) == (false, true)
    requires (h == b || h == b + Pow2(n)) && !Scan(res, h, h + Pow2(n)).1
    requires Decided(count, res, t, MAX_ORDER) && Within(h, t.head, t.order)
    ensures t == Tile(h, n, Free)
  {
    assert Pow2(n + 1) == Pow2(n) + Pow2(n);
    if t.order > n {
      Nested(h, b, n + 1, t.head, t.order);
      CutGrows(res, b, b + Pow2(n + 1), t.head, t.head + Pow2(t.order));
    } else if t.order < n {
      PartNotDivided(count, res, t, h, n);
    } else {
      SameOrderSame(h, t.head, h, n);
    }
  }

  /** A block smaller than an aligned block it lies in: the larger one was cut. */
  lemma PartNotDivided(count: nat, res: seq<Range>, t: Tile, h: nat, n: nat)
    requires Decided(count, res, t, MAX_ORDER) && t.order < n <= MAX_ORDER && Within(h, t.head, t.order)
    requires Aligned(h, n) && h + Pow2(n) <= count
    ensures Scan(res, h, h + Pow2(n)).1
  {
    var lo, m := Lower(t.head, t.order), t.order + 1;
    ParentHolds(t.head, t.order, h);
    Nested(h, lo, m, h, n);
    CutGrows(res, lo, lo + Pow2(m), h, h + Pow2(n));
  }

  lemma ParentHolds(i: nat, o: nat, p: nat)
    requires Aligned(i, o) && Within(p, i, o)
    ensures Aligned(Lower(i, o), o + 1) && Within(p, Lower(i, o), o + 1)
  {
    BuddyFacts(i, o);
  }

  /** A range cuts block `(b, n + 1)` and neither of its halves. */
  ghost predicate HalvesClear(count: nat, res: seq<Range>, b: nat, n: nat) {
    && n < MAX_ORDER && Aligned(b, n + 1) && b + Pow2(n + 1) <= count && Cut(res, b, b + Pow2(n + 1))
    && Clear(res, b, b + Pow2(n)) && Clear(res, b + Pow2(n), b + Pow2(n + 1))
  }

  ghost predicate HalvesTaken(count: nat, res: seq<Range>, b: nat, n: nat) {
    && n < MAX_ORDER && Aligned(b, n + 1) && b + Pow2(n + 1) <= count
    && Scan(res, b, b + Pow2(n + 1)) == (false, true)
    && !Scan(res, b, b + Pow2(n)).1 && !Scan(res, b + Pow2(n), b + Pow2(n) + Pow2(n)).1
  }

  lemma PartsScan(res: seq<Range>, b: nat, m: nat, e: nat)
    requires b < m < e
    ensures Scan(res, b, e) == (false, true) && !Scan(res, b, m).1 && !Scan(res, m, e).1 <==>
            Cut(res, b, e) && Clear(res, b, m) && Clear(res, m, e)
  {
    ScanCut(res, b, e);
    ScanClear(res, b, m);
    ScanClear(res, m, e);
  }

  lemma HalvesIff(count: nat, res: seq<Range>, b: nat, n: nat)
    ensures HalvesTaken(count, res, b, n) <==> HalvesClear(count, res, b, n)
  {
    assert Pow2(n + 1) == Pow2(n) + Pow2(n);
    PartsScan(res, b, b + Pow2(n), b + Pow2(n) + Pow2(n));
  }

  lemma TakenSplits(count: nat, padded: nat, res: seq<Range>, b: nat, n: nat)
    requires count <= padded && HalvesTaken(count, res, b, n)
    ensures !Coalesced(Carved(count, padded, res, false).own)
  {
    var m := b + Pow2(n);
    HalfIsBlock(count, padded, res, b, n, b);
    HalfIsBlock(count, padded, res, b, n, m);
    UpperBuddy(b, n);
  }

  lemma SiblingsTaken(count: nat, padded: nat, res: seq<Range>, p: nat, n: nat, q: nat)
    requires count <= padded && n < MAX_ORDER && q == Buddy(p, n)
    requires var own := Carved(count, padded, res, false).own; IsHead(own, p, n, Free) && IsHead(own, q, n, Free)
    ensures HalvesTaken(count, res, Lower(p, n), n)
  {
    CarvedPages(count, padded, res, false);
    CarvedDecides(count, padded, res, p);
    CarvedDecides(count, padded, res, q);
    BothTaken(count, res, p, n, q);
  }

  lemma BothTaken(count: nat, res: seq<Range>, p: nat, n: nat, q: nat)
    requires n < MAX_ORDER && q == Buddy(p, n)
    requires Decided(count, res, Tile(p, n, Free), MAX_ORDER) && Decided(count, res, Tile(q, n, Free), MAX_ORDER)
    ensures HalvesTaken(count, res, Lower(p, n), n)
  {
    BuddyFacts(p, n);
    assert Pow2(n + 1) == Pow2(n) + Pow2(n);
  }

  /**
    With any reservations: `carve` leaves two free siblings side by side exactly when a range cuts a block
    of at most the maximum order and neither of its halves.
  */
  lemma CarvedCoalescedIff(count: nat, padded: nat, res: seq<Range>)
    requires count <= padded
    ensures Coalesced(Carved(count, padded, res, false).own) <==>
            forall b: nat, n: nat :: !HalvesClear(count, res, b, n)
  {
    var own := Carved(count, padded, res, false).own;
    if b: nat, n: nat :| HalvesClear(count, res, b, n) {
      HalvesIff(count, res, b, n);
      TakenSplits(count, padded, res, b, n);
    }
    if !Coalesced(own) {
      var p: nat, n: nat :| IsHead(own, p, n, Free) && n < MAX_ORDER && IsHead(own, Buddy(p, n), n, Free);
      SiblingsTaken(count, padded, res, p, n, Buddy(p, n));
      HalvesIff(count, res, Lower(p, n), n);
    }
  }

  /** An aligned block of managed pages, of at most the maximum order, that a range cuts. */
  ghost predicate CutBlock(count: nat, res: seq<Range>, b: nat, n: nat) {
    n <= MAX_ORDER && Aligned(b, n) && b + Pow2(n) <= count && Cut(res, b, b + Pow2(n))
  }

  ghost predicate Undecided(count: nat, res: seq<Range>, b: nat, n: nat) {
    n <= MAX_ORDER && Aligned(b, n) && b + Pow2(n) <= count && Scan(res, b, b + Pow2(n)) == (false, true)
  }

  lemma DisjointTaken(res: seq<Range>, s: nat, e: nat)
    requires Disjoint(res) && s < e && Scan(res, s, e) != (false, true)
    ensures !Scan(res, s, e).1
  {
    ScanFacts(res, s, e);
  }

  lemma PageTaken(res: seq<Range>, p: nat)
    ensures !Scan(res, p, p + 1).1
  {
    ScanFacts(res, p, p + 1);
  }

  /** The smallest block that a range cuts has two halves that none cuts. */
  lemma {:induction false} SmallestCut(count: nat, res: seq<Range>, b: nat, n: nat) returns (a: nat, m: nat)
    requires Disjoint(res) && Undecided(count, res, b, n)
    ensures HalvesTaken(count, res, a, m)
    decreases n
  {
    PageTaken(res, b);
    var c := n - 1;
    var mid := b + Pow2(c);
    assert Pow2(n) == Pow2(c) + Pow2(c);
    HalfParents(b, c);
    if Scan(res, b, mid) == (false, true) {
      a, m := SmallestCut(count, res, b, c);
    } else if Scan(res, mid, mid + Pow2(c)) == (false, true) {
      a, m := SmallestCut(count, res, mid, c);
    } else {
      DisjointTaken(res, b, mid);
      DisjointTaken(res, mid, mid + Pow2(c));
      a, m := b, c;
    }
  }

  /**
    With disjoint ranges `carve` leaves no free siblings side by side exactly when every block that a range
    reaches into is contained in a range.
  */
  lemma DisjointCoalescedIff(count: nat, padded: nat, res: seq<Range>)
    requires count <= padded && Disjoint(res)
    ensures Coalesced(Carved(count, padded, res, false).own) <==>
            forall b: nat, n: nat :: !CutBlock(count, res, b, n)
  {
    CarvedCoalescedIff(count, padded, res);
    if b: nat, n: nat :| CutBlock(count, res, b, n) {
      ScanCut(res, b, b + Pow2(n));
      var a, m := SmallestCut(count, res, b, n);
      HalvesIff(count, res, a, m);
    }
    if b: nat, n: nat :| HalvesClear(count, res, b, n) {
      assert CutBlock(count, res, b, n + 1);
    }
  }

  // ----- What else depends on it -----

  lemma {:induction false} RunJoin(s: State, a: seq<Op>, b: seq<Op>)
    requires Inv(s) && Legal(s, a) && Legal(Run(s, a), b)
    ensures Legal(s, a + b) && Run(s, a + b) == Run(Run(s, a), b)
    decreases |a|
  {
    if a == [] {
      assert a + b == b;
    } else {
      assert (a + b)[0] == a[0] && (a + b)[1..] == a[1..] + b;
      RunJoin(Step(s, a[0]), a[1..], b);
    }
  }

  /** Takes the first free block of order `o`. */
  lemma TakeOne(s: State, o: nat)
    requires Inv(s) && o <= MAX_ORDER && s.lists[o] != []
    ensures var s', i := Step(s, AllocOp(o)), s.lists[o][0];
            && s'.lists[o] == s.lists[o][1..] && IsHead(s'.own, i, o, Live)
            && forall j: nat :: IsHead(s.own, j, o, Free) && j != i ==> IsHead(s'.own, j, o, Free)
  {
    PopInHand(s, o);
    var i := s.lists[o][0];
    assert TileAt(s.own, i);
    assert Step(s, AllocOp(o)) == Mark(Pop(s, o), i, o);
    forall j: nat | IsHead(s.own, j, o, Free) && j != i ensures IsHead(Pop(s, o).own, j, o, Free) {
      assert TileAt(s.own, j);
    }
  }

  /** Allocations that take every free block of order `o`. */
  lemma {:induction false} Drain(s: State, o: nat) returns (ops: seq<Op>)
    requires Inv(s) && o <= MAX_ORDER
    ensures Legal(s, ops) && forall op :: op in ops ==> op.AllocOp?
    ensures forall j: nat :: IsHead(s.own, j, o, Free) ==> IsHead(Run(s, ops).own, j, o, Live)
    decreases |s.lists[o]|
  {
    assert ListAgrees(s.own, s.lists[o], o);
    if s.lists[o] == [] {
      ops := [];
    } else {
      var s', i := Step(s, AllocOp(o)), s.lists[o][0];
      TakeOne(s, o);
      var rest := Drain(s', o);
      ops := [AllocOp(o)] + rest;
      assert ops[1..] == rest;
      RunKeepsLive(s', rest, i, o);
      assert Within(i, i, o);
    }
  }

  /** Releases that free everything. */
  lemma {:induction false} FreeAll(s: State) returns (ops: seq<Op>)
    requires Inv(s)
    ensures Legal(s, ops) && NoneLive(Run(s, ops))
    decreases |PagesOf(s.own, Live)|
  {
    if NoneLive(s) {
      ops := [];
    } else {
      var p :| 0 <= p < |s.own| && s.own[p].kind == Live;
      assert TileAt(s.own, p);
      var i, o := s.own[p].head, s.own[p].order;
      ReleaseCorrect(s, i, o);
      var s' := Step(s, FreeOp(i));
      MovesCount(s.own, s'.own, i, o, Live, Free);
      var rest := FreeAll(s');
      ops := [FreeOp(i)] + rest;
      assert ops[1..] == rest;
    }
  }

  /** Where two siblings are live, nothing is free. */
  lemma LiveSiblings(own: seq<Tile>, p: nat, o: nat)
    requires o < MAX_ORDER && Tiled(own) && IsHead(own, p, o, Live) && IsHead(own, Buddy(p, o), o, Live)
    ensures var base := Retile(own, Tile(Lower(p, o), o + 1, Live));
            CoalescedIn(base, own) && InOneBlock(base, Lower(p, o), o + 1) && Aligned(Lower(p, o), o + 1)
  {
    var base := Retile(own, Tile(Lower(p, o), o + 1, Live));
    assert TileAt(own, p) && TileAt(own, Buddy(p, o));
    BuddyFacts(p, o);
    assert Pow2(o + 1) == Pow2(o) + Pow2(o);
    forall q: nat, n: nat | IsHead(own, q, n, Free) && SameBlock(base, q, Buddy(q, n))
      ensures !IsHead(own, Buddy(q, n), n, Free)
    {
      FlipMoves(q, n);
    }
  }

  /** Two live siblings whose pages are all free after a run lie in one block then. */
  lemma FreedTogether(s: State, ops: seq<Op>, p: nat, o: nat)
    requires Inv(s) && Legal(s, ops) && NoneLive(Run(s, ops)) && o < MAX_ORDER
    requires IsHead(s.own, p, o, Live) && IsHead(s.own, Buddy(p, o), o, Live)
    ensures !IsHead(Run(s, ops).own, p, o, Free)
  {
    var r, lo := Run(s, ops), Lower(p, o);
    var base := Retile(s.own, Tile(lo, o + 1, Live));
    LiveSiblings(s.own, p, o);
    RunCoalesced(base, s, ops);
    RegionFreed(s.own, r.own, p, o);
    RunInOneBlock(base, r.own, lo, o + 1);
    InsideLarger(r.own, lo, o, p);
  }

  lemma RegionFreed(own: seq<Tile>, r: seq<Tile>, p: nat, o: nat)
    requires Tiled(own) && IsHead(own, p, o, Live) && IsHead(own, Buddy(p, o), o, Live) && |r| == |own|
    requires forall q :: 0 <= q < |r| ==> r[q].kind != Live
    requires forall q :: 0 <= q < |own| ==> (own[q].kind == Reserved <==> r[q].kind == Reserved)
    ensures AllFree(r, Lower(p, o), o + 1) && Within(p, Lower(p, o), o + 1)
  {
    assert TileAt(own, p) && TileAt(own, Buddy(p, o));
    BuddyFacts(p, o);
    assert Pow2(o + 1) == Pow2(o) + Pow2(o);
  }

  lemma InsideLarger(own: seq<Tile>, i: nat, o: nat, p: nat)
    requires Tiled(own) && i < |own| && own[i].order > o && Within(p, i, o + 1)
    requires own[i].head <= i && i + Pow2(o + 1) <= own[i].head + Pow2(own[i].order)
    ensures !IsHead(own, p, o, Free)
  {
    assert TileAt(own, i);
    assert Within(p, own[i].head, own[i].order);
  }

  /** Two free siblings at the start: a run that takes all blocks of their order, and frees them, joins the two. */
  lemma JoinsSiblings(s: State, p: nat, o: nat) returns (ops: seq<Op>)
    requires Inv(s) && o < MAX_ORDER && IsHead(s.own, p, o, Free) && IsHead(s.own, Buddy(p, o), o, Free)
    ensures Legal(s, ops) && NoneLive(Run(s, ops)) && !IsHead(Run(s, ops).own, p, o, Free)
  {
    var taking := Drain(s, o);
    var m := Run(s, taking);
    var freeing := FreeAll(m);
    RunJoin(s, taking, freeing);
    FreedTogether(m, freeing, p, o);
    ops := taking + freeing;
  }

  ghost predicate Restores(s: State, ops: seq<Op>)
    requires Inv(s)
  {
    Legal(s, ops) && NoneLive(Run(s, ops)) ==> SameLists(s, Run(s, ops))
  }

  /** The runs that free everything all restore the free lists exactly when no free siblings lie side by side. */
  lemma RestoresIff(s: State)
    requires Inv(s) && NoneLive(s)
    ensures Coalesced(s.own) <==> forall ops: seq<Op> :: Restores(s, ops)
  {
    if Coalesced(s.own) {
      forall ops: seq<Op> ensures Restores(s, ops) {
        if Legal(s, ops) && NoneLive(Run(s, ops)) { RunRestores(s, ops); }
      }
    } else {
      var p: nat, o: nat :| IsHead(s.own, p, o, Free) && o < MAX_ORDER && IsHead(s.own, Buddy(p, o), o, Free);
      var ops := JoinsSiblings(s, p, o);
      var r := Run(s, ops);
      assert ListAgrees(s.own, s.lists[o], o) && ListAgrees(r.own, r.lists[o], o);
      assert p in s.lists[o] && p !in r.lists[o];
      assert !Restores(s, ops);
    }
  }

  ghost predicate TwoFreePages(s: State) {
    Inv(s) && s.own == [Tile(0, 0, Free), Tile(1, 0, Free)]
  }

  lemma FirstReserved(n: nat, res: seq<Range>)
    requires n == 2 && res == [Range(0, 1)]
    ensures TwoFreePages(Carved(n, n, res, false))
  {
    CarvedPages(n, n, res, false);
    ZeroAligned(1);
    assert Touches(res[0], 0, n) && Cut(res, 0, n) && Contains(res[0], 0, 1);
    assert Pow2(0) == 1 && Pow2(1) == 2;
    HalvesIff(n, res, 0, 0);
    HalfIsBlock(n, n, res, 0, 0, 0);
    HalfIsBlock(n, n, res, 0, 0, 1);
  }

  lemma TwoFreePagesFail(s: State)
    requires TwoFreePages(s)
    ensures !Coalesced(s.own) && AllFree(s.own, 0, 1) && Alloc(s, 1).0.None?
  {
    ZeroAligned(1);
    UpperBuddy(0, 0);
    assert IsHead(s.own, Buddy(1, 0), 0, Free);
    assert Pow2(1) == 2;
    AllocFailsIff(s, 1);
  }

  /**
    Two pages, the first reserved: both are free blocks of their own, so a block of two pages is not found
    although both are free, and some run that frees everything does not restore the lists.
  */
  lemma CutPages()
    ensures var s := Carved(2, 2, [Range(0, 1)], false);
            && Inv(s) && s.own == [Tile(0, 0, Free), Tile(1, 0, Free)] && !Coalesced(s.own)
            && AllFree(s.own, 0, 1) && Alloc(s, 1).0.None?
            && exists ops: seq<Op> :: !Restores(s, ops)
  {
    var n, res := 2, [Range(0, 1)];
    var s := Carved(n, n, res, false);
    FirstReserved(n, res);
    TwoFreePagesFail(s);
    RestoresIff(s);
  }
}
