/** The two ways `init` builds the free lists, and what they leave free. */
module BuddyInit {
  import opened Bits
  import opened BuddyModel

  /** A page range `[lo, hi)` that the board reserves. */
  datatype Range = Range(lo: nat, hi: nat)

  function Repeat(t: Tile, n: nat): (r: seq<Tile>)
    ensures |r| == n && forall i :: 0 <= i < n ==> r[i] == t
  {
    seq(n, i => t)
  }

  /** Lists empty, managed pages blank, padding used for ever. */
  function Blank(count: nat, padded: nat): (s: State) {
    State([], seq(MAX_ORDER + 1, o => []),
      seq(padded, p => if p < count then PageMeta(0, false) else PageMeta(MAX_ORDER, true)))
  }

  /** The next pages, in address order, become block `t`. */
  function Extend(s: State, t: Tile): (r: State)
    requires t.order < |s.lists| && t.head < |s.meta|
  {
    var grown := s.(own := s.own + Repeat(t, Pow2(t.order)));
    if t.kind == Free then Push(grown, t.head, t.order)
    else grown.(meta := s.meta[t.head := PageMeta(RESERVED_ORDER, true)])
  }

  /** The first `|own|` of `count` managed pages are set up. */
  ghost predicate Growing(s: State, count: nat) {
    var consistent := InvBut(s, -1);
    && consistent
    && |s.own| <= count <= |s.meta|
    && (forall p :: count <= p < |s.meta| ==> s.meta[p].used)
  }

  lemma BlankGrowing(count: nat, padded: nat)
    requires count <= padded
    ensures Growing(Blank(count, padded), count)
  {
    var s := Blank(count, padded);
    forall o | 0 <= o <= MAX_ORDER ensures ListAgrees(s.own, s.lists[o], o) {
    }
  }

  ghost predicate Next(s: State, count: nat, t: Tile) {
    t.head == |s.own| && t.order <= MAX_ORDER && Aligned(t.head, t.order) && t.head + Pow2(t.order) <= count &&
      t.kind != Live
  }

  lemma ExtendTiled(own: seq<Tile>, t: Tile)
    requires Tiled(own) && t.head == |own| && t.order <= MAX_ORDER && Aligned(t.head, t.order)
    ensures Tiled(own + Repeat(t, Pow2(t.order)))
  {
    var r := own + Repeat(t, Pow2(t.order));
    forall p | 0 <= p < |r| ensures TileAt(r, p) {
      if p < |own| {
        assert TileAt(own, p);
      }
    }
  }

  lemma ExtendGrowing(s: State, count: nat, t: Tile)
    requires Growing(s, count) && Next(s, count, t)
    ensures Growing(Extend(s, t), count)
    ensures Extend(s, t).own == s.own + Repeat(t, Pow2(t.order))
  {
    var r := Extend(s, t);
    ExtendTiled(s.own, t);
    assert forall p :: 0 <= p < |r.own| && r.own[p].head == p ==> p < |s.own| || p == t.head;
    forall o | 0 <= o <= MAX_ORDER ensures ListAgrees(r.own, r.lists[o], o) {
      assert ListAgrees(s.own, s.lists[o], o);
      assert t.head !in s.lists[o];
      assert forall p :: IsHead(r.own, p, o, Free) <==>
        IsHead(s.own, p, o, Free) || (p == t.head && t.order == o && t.kind == Free);
    }
  }

  // ----- Lists of blocks in address order -----

  /** Blocks that cover pages `a` to `b` without gap or overlap. */
  ghost predicate Covers(bs: seq<Tile>, a: nat, b: nat)
    decreases |bs|
  {
    if bs == [] then a == b
    else
      && bs[0].head == a && bs[0].order <= MAX_ORDER && Aligned(a, bs[0].order) && bs[0].kind != Live
      && Covers(bs[1..], a + Pow2(bs[0].order), b)
  }

  lemma {:induction false} CoversJoin(x: seq<Tile>, y: seq<Tile>, a: nat, b: nat, c: nat)
    requires Covers(x, a, b) && Covers(y, b, c)
    ensures Covers(x + y, a, c) && a <= b
    decreases |x|
  {
    if x == [] {
      assert x + y == y;
    } else {
      assert (x + y)[1..] == x[1..] + y;
      CoversJoin(x[1..], y, a + Pow2(x[0].order), b, c);
    }
  }

  ghost predicate Fits(bs: seq<Tile>, n: nat) {
    forall t :: t in bs ==> t.order <= MAX_ORDER && t.head < n
  }

  /** Puts blocks in, first to last. */
  function Build(s: State, bs: seq<Tile>): (r: State)
    requires |s.lists| == MAX_ORDER + 1 && Fits(bs, |s.meta|)
    ensures |r.lists| == |s.lists| && |r.meta| == |s.meta|
    decreases |bs|
  {
    if bs == [] then s else Build(Extend(s, bs[0]), bs[1..])
  }

  lemma {:induction false} CoversInRange(bs: seq<Tile>, a: nat, b: nat)
    requires Covers(bs, a, b)
    ensures a <= b && forall t :: t in bs ==> t.order <= MAX_ORDER && a <= t.head && t.head + Pow2(t.order) <= b
    decreases |bs|
  {
    if bs != [] { CoversInRange(bs[1..], a + Pow2(bs[0].order), b); }
  }

  lemma {:induction false} BuildGrowing(s: State, count: nat, bs: seq<Tile>, b: nat)
    requires Growing(s, count) && Covers(bs, |s.own|, b) && b <= count
    requires Fits(bs, |s.meta|)
    ensures Growing(Build(s, bs), count) && |Build(s, bs).own| == b && s.own <= Build(s, bs).own
    decreases |bs|
  {
    if bs != [] {
      var t := bs[0];
      assert t in bs;
      CoversInRange(bs, |s.own|, b);
      ExtendGrowing(s, count, t);
      BuildGrowing(Extend(s, t), count, bs[1..], b);
    }
  }

  /** Every page set up belongs to one of the blocks put in. */
  lemma {:induction false} BuildPages(s: State, count: nat, bs: seq<Tile>, b: nat, p: nat)
    requires Growing(s, count) && Covers(bs, |s.own|, b) && b <= count && |s.own| <= p < b
    requires Fits(bs, |s.meta|)
    ensures |Build(s, bs).own| == b && Build(s, bs).own[p] in bs
    ensures Within(p, Build(s, bs).own[p].head, Build(s, bs).own[p].order)
    decreases |bs|
  {
    BuildGrowing(s, count, bs, b);
    var t := bs[0];
    assert t in bs;
    CoversInRange(bs, |s.own|, b);
    ExtendGrowing(s, count, t);
    var m := Extend(s, t);
    if p < |m.own| {
      BuildGrowing(m, count, bs[1..], b);
      assert Build(s, bs).own[p] == m.own[p];
    } else {
      BuildPages(m, count, bs[1..], b, p);
    }
  }

  lemma BuildStep(s: State, t: Tile, rest: seq<Tile>)
    requires |s.lists| == MAX_ORDER + 1 && Fits([t] + rest, |s.meta|)
    ensures t.order <= MAX_ORDER && t.head < |s.meta| && Fits(rest, |s.meta|)
    ensures Build(s, [t] + rest) == Build(Extend(s, t), rest)
  {
    var bs := [t] + rest;
    assert bs[0] == t && bs[1..] == rest;
    assert t in bs;
    forall u | u in rest ensures u in bs {
    }
  }

  lemma {:induction false} BuildJoin(s: State, x: seq<Tile>, y: seq<Tile>)
    requires |s.lists| == MAX_ORDER + 1 && Fits(x + y, |s.meta|)
    ensures Fits(x, |s.meta|) && Fits(y, |s.meta|)
    ensures Build(s, x + y) == Build(Build(s, x), y)
    decreases |x|
  {
    forall t | t in x || t in y ensures t in x + y {
    }
    if x == [] {
      assert x + y == y;
    } else {
      assert (x + y)[1..] == x[1..] + y;
      assert x[0] in x;
      BuildJoin(Extend(s, x[0]), x[1..], y);
    }
  }

  // ----- No reservation: largest blocks first, then the tail in halving sizes -----

  function Ilog2(n: nat): (r: nat)
    requires n > 0
  {
    if n == 1 then 0 else 1 + Ilog2(n / 2)
  }

  lemma {:induction false} Ilog2Facts(n: nat)
    requires n > 0
    ensures Pow2(Ilog2(n)) <= n < Pow2(Ilog2(n) + 1)
  {
    if n > 1 { Ilog2Facts(n / 2); }
  }

  /** Order of the block placed when `rest` pages are left. */
  function PlainOrder(rest: nat): (o: nat)
    requires rest > 0
  {
    if Ilog2(rest) <= MAX_ORDER then Ilog2(rest) else MAX_ORDER
  }

  lemma PlainOrderFacts(rest: nat)
    requires rest > 0
    ensures PlainOrder(rest) <= MAX_ORDER && Pow2(PlainOrder(rest)) <= rest
    ensures PlainOrder(rest) < MAX_ORDER ==> rest < Pow2(PlainOrder(rest) + 1)
  {
    Ilog2Facts(rest);
    if Ilog2(rest) > MAX_ORDER { Pow2Mono(MAX_ORDER, Ilog2(rest)); }
  }

  /** The blocks `init` places from page `i` on when nothing is reserved. */
  function PlainBlocks(i: nat, count: nat): (bs: seq<Tile>)
    requires i <= count
    decreases count - i
  {
    if i == count then []
    else
      PlainOrderFacts(count - i);
      var o := PlainOrder(count - i);
      [Tile(i, o, Free)] + PlainBlocks(i + Pow2(o), count)
  }

  /** `o` is `ilog2(rest).min(MAX_ORDER)`. */
  ghost predicate OrderFor(rest: nat, o: nat) {
    o <= MAX_ORDER && Pow2(o) <= rest && (o < MAX_ORDER ==> rest < Pow2(o + 1))
  }

  lemma OrderForUnique(rest: nat, o: nat, n: nat)
    requires OrderFor(rest, o) && OrderFor(rest, n)
    ensures o == n
  {
    if o < n { Pow2Mono(o + 1, n); }
    if n < o { Pow2Mono(n + 1, o); }
  }

  /** `bs` are the blocks `init` places from page `i` on. */
  ghost predicate IsPlain(bs: seq<Tile>, i: nat, count: nat)
    decreases |bs|
  {
    if bs == [] then i == count
    else
      var rest := IsPlain(bs[1..], i + Pow2(bs[0].order), count);
      rest && i < count && bs[0].head == i && bs[0].kind == Free && OrderFor(count - i, bs[0].order)
  }

  lemma PlainNext(rest: seq<Tile>, i: nat, count: nat, o: nat, next: nat)
    requires Covers(rest, i, count) && IsPlain(rest, i, count) && i < count && OrderFor(count - i, o)
    requires next == i + Pow2(o)
    ensures rest != [] && rest == [Tile(i, o, Free)] + rest[1..] && Aligned(i, o) && next <= count
    ensures Covers(rest[1..], next, count) && IsPlain(rest[1..], next, count)
  {
    OrderForUnique(count - i, o, rest[0].order);
  }

  lemma IsPlainCons(rest: seq<Tile>, i: nat, count: nat, o: nat, next: nat)
    requires i < count && OrderFor(count - i, o) && next == i + Pow2(o) && IsPlain(rest, next, count)
    ensures IsPlain([Tile(i, o, Free)] + rest, i, count)
  {
    assert ([Tile(i, o, Free)] + rest)[1..] == rest;
  }

  lemma PlainBlocksStep(i: nat, count: nat) returns (o: nat, next: nat)
    requires i < count
    ensures OrderFor(count - i, o) && next == i + Pow2(o) && i < next <= count
    ensures PlainBlocks(i, count) == [Tile(i, o, Free)] + PlainBlocks(next, count)
  {
    PlainOrderFacts(count - i);
    o := PlainOrder(count - i);
    next := i + Pow2(o);
  }

  lemma {:induction false} PlainIsPlain(i: nat, count: nat)
    requires i <= count
    ensures IsPlain(PlainBlocks(i, count), i, count)
    decreases count - i
  {
    if i == count {
      assert PlainBlocks(i, count) == [];
    } else {
      var o, next := PlainBlocksStep(i, count);
      PlainIsPlain(next, count);
      IsPlainCons(PlainBlocks(next, count), i, count, o, next);
    }
  }

  /** `k`: every remaining block is smaller than `1 << k`, unless `k` is the maximum order. */
  ghost predicate PlainReady(i: nat, count: nat, k: nat) {
    i <= count && k <= MAX_ORDER && Aligned(i, k) && (k < MAX_ORDER ==> count - i < Pow2(k))
  }

  lemma PlainStep(i: nat, count: nat, k: nat, o: nat, next: nat)
    requires PlainReady(i, count, k) && i < count && OrderFor(count - i, o) && next == i + Pow2(o)
    ensures k < MAX_ORDER ==> o < k
    ensures o <= k && Aligned(i, o) && PlainReady(next, count, o)
  {
    if k < MAX_ORDER && o >= k {
      Pow2Mono(k, o);
      assert false;
    }
    AlignedDown(i, o, k);
    AlignedStep(i, o);
  }

  lemma {:induction false} PlainCovers(bs: seq<Tile>, i: nat, count: nat, k: nat)
    requires IsPlain(bs, i, count) && PlainReady(i, count, k)
    ensures Covers(bs, i, count)
    decreases |bs|
  {
    if bs != [] {
      var o, next := bs[0].order, i + Pow2(bs[0].order);
      PlainStep(i, count, k, o, next);
      PlainCovers(bs[1..], next, count, o);
      OneCovers(i, o, Free);
      CoversJoin([Tile(i, o, Free)], bs[1..], i, next, count);
      assert bs == [Tile(i, o, Free)] + bs[1..];
    }
  }

  /** Below the maximum order the sizes strictly decrease. */
  lemma {:induction false} PlainSizes(bs: seq<Tile>, i: nat, count: nat, k: nat)
    requires IsPlain(bs, i, count) && PlainReady(i, count, k)
    ensures forall t :: t in bs ==> t.kind == Free && (t.order < k || t.order == MAX_ORDER == k)
    ensures forall t, u :: t in bs && u in bs && t.order == u.order < MAX_ORDER ==> t == u
    decreases |bs|
  {
    if bs != [] {
      var o, next := bs[0].order, i + Pow2(bs[0].order);
      PlainStep(i, count, k, o, next);
      PlainSizes(bs[1..], next, count, o);
      SizesCons(bs[0], bs[1..], o, k);
      assert bs == [bs[0]] + bs[1..];
    }
  }

  lemma SizesCons(b: Tile, rest: seq<Tile>, o: nat, k: nat)
    requires b.order == o <= k <= MAX_ORDER && b.kind == Free && (k < MAX_ORDER ==> o < k)
    requires forall t :: t in rest ==> t.kind == Free && (t.order < o || t.order == MAX_ORDER == o)
    requires forall t, u :: t in rest && u in rest && t.order == u.order < MAX_ORDER ==> t == u
    ensures forall t :: t in [b] + rest ==> t.kind == Free && (t.order < k || t.order == MAX_ORDER == k)
    ensures forall t, u :: t in [b] + rest && u in [b] + rest && t.order == u.order < MAX_ORDER ==> t == u
  {
    forall t | t in [b] + rest ensures t == b || t in rest {}
  }

  lemma PlainStarts(count: nat)
    ensures PlainReady(0, count, MAX_ORDER)
  {
    ZeroAligned(MAX_ORDER);
  }

  lemma PlainFits(i: nat, count: nat, k: nat, padded: nat)
    requires PlainReady(i, count, k) && count <= padded
    ensures Covers(PlainBlocks(i, count), i, count) && Fits(PlainBlocks(i, count), padded)
  {
    PlainIsPlain(i, count);
    PlainCovers(PlainBlocks(i, count), i, count, k);
    CoversInRange(PlainBlocks(i, count), i, count);
  }

  /** `init` without reservations. */
  function Plain(count: nat, padded: nat): (r: State)
    requires count <= padded
  {
    PlainStarts(count);
    PlainFits(0, count, MAX_ORDER, padded);
    Build(Blank(count, padded), PlainBlocks(0, count))
  }

  /**
    Without reservations `init` makes every page free and leaves no two free siblings, also in a
    tail that is not a multiple of the maximum block.
  */
  lemma PlainCorrect(count: nat, padded: nat)
    requires count <= padded
    ensures var s := Plain(count, padded);
            && Inv(s) && |s.own| == count && Coalesced(s.own)
            && forall p :: 0 <= p < count ==> s.own[p].kind == Free
  {
    var s0, bs := Blank(count, padded), PlainBlocks(0, count);
    BlankGrowing(count, padded);
    PlainStarts(count);
    PlainFits(0, count, MAX_ORDER, padded);
    BuildGrowing(s0, count, bs, count);
    PlainIsPlain(0, count);
    PlainSizes(bs, 0, count, MAX_ORDER);
    var s := Build(s0, bs);
    forall p: nat | p < count ensures s.own[p] in bs {
      BuildPages(s0, count, bs, count, p);
    }
    SizesCoalesced(s.own, bs);
  }

  /** Blocks below the maximum order that all differ in size have no sibling among them. */
  lemma SizesCoalesced(own: seq<Tile>, bs: seq<Tile>)
    requires Tiled(own) && forall p :: 0 <= p < |own| ==> own[p] in bs
    requires forall t, u :: t in bs && u in bs && t.order == u.order < MAX_ORDER ==> t == u
    ensures Coalesced(own)
  {
    forall p: nat, o: nat | IsHead(own, p, o, Free) && o < MAX_ORDER ensures !IsHead(own, Buddy(p, o), o, Free) {
      assert TileAt(own, p);
      BuddyFacts(p, o);
    }
  }

  // ----- With reservations: carve -----

  /** The scan over the ranges in `carve`: (inside_any, overlap_any). */
  function Scan(res: seq<Range>, s: nat, e: nat): (r: (bool, bool)) {
    if res == [] then (false, false)
    else if res[0].lo <= s && e <= res[0].hi then (true, false)
    else
      var (inside, overlap) := Scan(res[1..], s, e);
      (inside, overlap || (e > res[0].lo && s < res[0].hi))
  }

  lemma {:induction false} ScanFacts(res: seq<Range>, s: nat, e: nat)
    requires s < e
    ensures Scan(res, s, e).0 <==> exists j :: 0 <= j < |res| && res[j].lo <= s && e <= res[j].hi
    ensures Scan(res, s, e) == (false, false) ==> forall j :: 0 <= j < |res| ==> e <= res[j].lo || res[j].hi <= s
    ensures e == s + 1 ==> !Scan(res, s, e).1
    ensures Disjoint(res) ==> !(Scan(res, s, e).0 && Scan(res, s, e).1)
  {
    if res != [] {
      var t := res[1..];
      ScanFacts(t, s, e);
      assert forall j :: 0 <= j < |t| ==> t[j] == res[j + 1];
      assert Disjoint(res) ==> Disjoint(t);
      if Scan(t, s, e).0 {
        var j :| 0 <= j < |t| && t[j].lo <= s && e <= t[j].hi;
        assert res[j + 1] == t[j];
      }
      if j :| 0 <= j < |res| && res[j].lo <= s && e <= res[j].hi {
        if j > 0 { assert t[j - 1] == res[j]; }
      }
    }
  }

  ghost predicate Disjoint(res: seq<Range>) {
    forall i, j :: 0 <= i < j < |res| ==> res[i].hi <= res[j].lo || res[j].hi <= res[i].lo
  }

  ghost predicate ReservedPage(res: seq<Range>, p: int) {
    exists j :: 0 <= j < |res| && res[j].lo <= p < res[j].hi
  }

  /**
    The blocks that `carve` makes of block `(i, o)`. With `insideFirst` false this is the code, which
    asks "does nothing overlap?" before "is it inside a range?"; with `insideFirst` true the two
    tests are exchanged.
  */
  function Carve(count: nat, i: nat, o: nat, res: seq<Range>, insideFirst: bool): (bs: seq<Tile>)
    decreases o, count, 1
  {
    if i >= count then []
    else if i + Pow2(o) > count then Halves(count, i, o, res, insideFirst)
    else
      var (inside, overlap) := Scan(res, i, i + Pow2(o));
      ScanFacts(res, i, i + Pow2(o));
      if insideFirst && inside then [Tile(i, o, Reserved)]
      else if !overlap then [Tile(i, o, Free)]
      else if inside then [Tile(i, o, Reserved)]
      else Halves(count, i, o, res, insideFirst)
  }

  function Halves(count: nat, i: nat, o: nat, res: seq<Range>, insideFirst: bool): (bs: seq<Tile>)
    requires o > 0
    decreases o, count, 0
  {
    Carve(count, i, o - 1, res, insideFirst) + Carve(count, i + Pow2(o - 1), o - 1, res, insideFirst)
  }

  lemma HalvesAre(count: nat, i: nat, o: nat, res: seq<Range>, insideFirst: bool, half: nat, mid: nat,
                  left: seq<Tile>, right: seq<Tile>)
    requires o > 0 && half == o - 1 && mid == i + Pow2(half)
    requires left == Carve(count, i, half, res, insideFirst) && right == Carve(count, mid, half, res, insideFirst)
    ensures Halves(count, i, o, res, insideFirst) == left + right && Pow2(o) == Pow2(half) + Pow2(half)
  {
  }

  /** The loop of `init` over the blocks of the top order, from page `i` on. */
  function CarveAll(count: nat, i: nat, top: nat, res: seq<Range>, insideFirst: bool): (bs: seq<Tile>)
    decreases if i < count then count - i else 0
  {
    if i >= count then []
    else Carve(count, i, top, res, insideFirst) + CarveAll(count, i + Pow2(top), top, res, insideFirst)
  }

  function Min(a: nat, b: nat): (r: nat) { if a < b then a else b }

  lemma OneCovers(i: nat, o: nat, k: Kind)
    requires Aligned(i, o) && o <= MAX_ORDER && k != Live
    ensures Covers([Tile(i, o, k)], i, i + Pow2(o))
  {
    var bs := [Tile(i, o, k)];
    assert bs[1..] == [];
  }

  lemma {:induction false} CarveCovers(count: nat, i: nat, o: nat, res: seq<Range>, f: bool)
    requires Aligned(i, o) && o <= MAX_ORDER
    ensures Covers(Carve(count, i, o, res, f), Min(i, count), Min(i + Pow2(o), count))
    decreases o, 1
  {
    var e := i + Pow2(o);
    ScanFacts(res, i, e);
    if i >= count {
    } else if e > count || (Scan(res, i, e).1 && !Scan(res, i, e).0) {
      HalvesCover(count, i, o, res, f);
    } else if Scan(res, i, e).0 && (f || Scan(res, i, e).1) {
      OneCovers(i, o, Reserved);
    } else {
      OneCovers(i, o, Free);
    }
  }

  lemma {:induction false} HalvesCover(count: nat, i: nat, o: nat, res: seq<Range>, f: bool)
    requires Aligned(i, o) && 0 < o <= MAX_ORDER
    ensures Covers(Halves(count, i, o, res, f), Min(i, count), Min(i + Pow2(o), count))
    decreases o, 0
  {
    var c := o - 1;
    var j := i + Pow2(c);
    AlignedDown(i, c, o);
    AlignedStep(i, c);
    CarveCovers(count, i, c, res, f);
    CarveCovers(count, j, c, res, f);
    assert i + Pow2(o) == j + Pow2(c);
    CoversJoin(Carve(count, i, c, res, f), Carve(count, j, c, res, f),
               Min(i, count), Min(j, count), Min(i + Pow2(o), count));
  }

  lemma {:induction false} CarveAllCovers(count: nat, i: nat, top: nat, res: seq<Range>, f: bool)
    requires Aligned(i, top) && top <= MAX_ORDER
    ensures Covers(CarveAll(count, i, top, res, f), Min(i, count), count)
    decreases if i < count then count - i else 0
  {
    if i < count {
      var j := i + Pow2(top);
      CarveCovers(count, i, top, res, f);
      AlignedStep(i, top);
      CarveAllCovers(count, j, top, res, f);
      CoversJoin(Carve(count, i, top, res, f), CarveAll(count, j, top, res, f), i, Min(j, count), count);
    }
  }

  lemma CarveFits(count: nat, i: nat, o: nat, res: seq<Range>, f: bool, padded: nat)
    requires Aligned(i, o) && o <= MAX_ORDER && count <= padded
    ensures Fits(Carve(count, i, o, res, f), padded)
  {
    CarveCovers(count, i, o, res, f);
    CoversInRange(Carve(count, i, o, res, f), Min(i, count), Min(i + Pow2(o), count));
  }

  /** A block is reserved exactly when all, and free exactly when none, of its pages are in a range. */
  ghost predicate Honest(t: Tile, res: seq<Range>) {
    forall p :: Within(p, t.head, t.order) ==> (t.kind == Reserved <==> ReservedPage(res, p))
  }

  lemma HonestBlock(i: nat, o: nat, res: seq<Range>)
    ensures Scan(res, i, i + Pow2(o)).0 ==> Honest(Tile(i, o, Reserved), res)
    ensures Scan(res, i, i + Pow2(o)) == (false, false) ==> Honest(Tile(i, o, Free), res)
  {
    var e := i + Pow2(o);
    ScanFacts(res, i, e);
    if Scan(res, i, e).0 {
      var j :| 0 <= j < |res| && res[j].lo <= i && e <= res[j].hi;
      forall p | Within(p, i, o) ensures ReservedPage(res, p) {
        assert res[j].lo <= p < res[j].hi;
      }
    }
  }

  lemma {:induction false} CarveHonest(count: nat, i: nat, o: nat, res: seq<Range>)
    ensures forall t :: t in Carve(count, i, o, res, true) ==> Honest(t, res)
    decreases o
  {
    if i < count {
      HonestBlock(i, o, res);
      if o > 0 {
        CarveHonest(count, i, o - 1, res);
        CarveHonest(count, i + Pow2(o - 1), o - 1, res);
      }
      ScanFacts(res, i, i + Pow2(o));
    }
  }

  /** The code on disjoint ranges: every block it makes is free. */
  lemma {:induction false} CarveFreesAll(count: nat, i: nat, o: nat, res: seq<Range>)
    requires Disjoint(res)
    ensures forall t :: t in Carve(count, i, o, res, false) ==> t.kind == Free
    decreases o
  {
    if i < count {
      ScanFacts(res, i, i + Pow2(o));
      if o > 0 {
        CarveFreesAll(count, i, o - 1, res);
        CarveFreesAll(count, i + Pow2(o - 1), o - 1, res);
      }
    }
  }

  lemma {:induction false} CarveAllKinds(count: nat, i: nat, top: nat, res: seq<Range>)
    ensures forall t :: t in CarveAll(count, i, top, res, true) ==> Honest(t, res)
    ensures Disjoint(res) ==> forall t :: t in CarveAll(count, i, top, res, false) ==> t.kind == Free
    decreases if i < count then count - i else 0
  {
    if i < count {
      CarveHonest(count, i, top, res);
      if Disjoint(res) { CarveFreesAll(count, i, top, res); }
      CarveAllKinds(count, i + Pow2(top), top, res);
    }
  }

  lemma CarveAllReady(count: nat, padded: nat, res: seq<Range>, insideFirst: bool)
    requires count <= padded
    ensures Growing(Blank(count, padded), count)
    ensures Covers(CarveAll(count, 0, MAX_ORDER, res, insideFirst), 0, count)
    ensures Fits(CarveAll(count, 0, MAX_ORDER, res, insideFirst), padded)
  {
    BlankGrowing(count, padded);
    ZeroAligned(MAX_ORDER);
    CarveAllCovers(count, 0, MAX_ORDER, res, insideFirst);
    CoversInRange(CarveAll(count, 0, MAX_ORDER, res, insideFirst), 0, count);
  }

  /** `init` with reservations. */
  function Carved(count: nat, padded: nat, res: seq<Range>, insideFirst: bool): (r: State)
    requires count <= padded
  {
    CarveAllReady(count, padded, res, insideFirst);
    Build(Blank(count, padded), CarveAll(count, 0, MAX_ORDER, res, insideFirst))
  }

  lemma CarvedPages(count: nat, padded: nat, res: seq<Range>, f: bool)
    requires count <= padded
    ensures var s := Carved(count, padded, res, f);
            && Inv(s) && |s.own| == count
            && forall p :: 0 <= p < count ==>
                 s.own[p] in CarveAll(count, 0, MAX_ORDER, res, f) && Within(p, s.own[p].head, s.own[p].order)
  {
    CarveAllReady(count, padded, res, f);
    var s0, bs := Blank(count, padded), CarveAll(count, 0, MAX_ORDER, res, f);
    BuildGrowing(s0, count, bs, count);
    forall p: nat | p < count
      ensures Build(s0, bs).own[p] in bs && Within(p, Build(s0, bs).own[p].head, Build(s0, bs).own[p].order)
    {
      BuildPages(s0, count, bs, count, p);
    }
  }

  predicate Contains(r: Range, s: nat, e: nat) {
    r.lo <= s && e <= r.hi
  }

  predicate Touches(r: Range, s: nat, e: nat) {
    e > r.lo && s < r.hi
  }

  /** The first range that contains the pages `s` to `e` comes after one that overlaps them. */
  ghost predicate TouchedBefore(res: seq<Range>, s: nat, e: nat) {
    exists j, k :: 0 <= j < k < |res| && ContainedFirst(res, k, s, e) && Touches(res[j], s, e)
  }

  ghost predicate ContainedFirst(res: seq<Range>, k: nat, s: nat, e: nat)
    requires k < |res|
  {
    Contains(res[k], s, e) && forall m :: 0 <= m < k ==> !Contains(res[m], s, e)
  }

  lemma {:induction false} ScanInside(res: seq<Range>, s: nat, e: nat)
    requires s < e
    ensures Scan(res, s, e) == (true, true) <==> TouchedBefore(res, s, e)
  {
    if res != [] {
      var t := res[1..];
      ScanInside(t, s, e);
      assert forall m :: 0 <= m < |t| ==> t[m] == res[m + 1];
      if j, k :| 0 <= j < k < |t| && ContainedFirst(t, k, s, e) && Touches(t[j], s, e) {
        if !Contains(res[0], s, e) {
          assert ContainedFirst(res, k + 1, s, e) && Touches(res[j + 1], s, e);
        }
      }
      if Touches(res[0], s, e) && !Contains(res[0], s, e) && Scan(t, s, e).0 {
        var k := FirstContaining(t, s, e);
        assert ContainedFirst(res, k + 1, s, e) && Touches(res[0], s, e);
      }
      if j, k :| 0 <= j < k < |res| && ContainedFirst(res, k, s, e) && Touches(res[j], s, e) {
        assert !Contains(res[0], s, e) && ContainedFirst(t, k - 1, s, e);
        ScanFacts(t, s, e);
        assert Contains(t[k - 1], s, e);
        if j > 0 { assert Touches(t[j - 1], s, e); }
      }
    }
  }

  lemma {:induction false} FirstContaining(res: seq<Range>, s: nat, e: nat) returns (k: nat)
    requires s < e && Scan(res, s, e).0
    ensures k < |res| && ContainedFirst(res, k, s, e)
  {
    if Contains(res[0], s, e) {
      k := 0;
    } else {
      k := FirstContaining(res[1..], s, e);
      assert forall m :: 0 < m < |res| ==> res[m] == res[1..][m - 1];
      k := k + 1;
    }
  }

  /** What overlaps nothing, or nothing before it lies inside, has no part that fares otherwise. */
  lemma {:induction false} ScanParts(res: seq<Range>, s: nat, e: nat, s': nat, e': nat)
    requires s <= s' < e' <= e && !Scan(res, s, e).1
    ensures !Scan(res, s', e').1
  {
    if res != [] && !Contains(res[0], s, e) { ScanParts(res[1..], s, e, s', e'); }
  }

  /**
    Some aligned block of managed pages around `p`, of at most order `o`, is touched by one range before
    another contains it.
  */
  ghost predicate Withheld(count: nat, res: seq<Range>, p: nat, o: nat) {
    exists b: nat, n: nat :: n <= o && Withholds(count, res, p, b, n)
  }

  ghost predicate Withholds(count: nat, res: seq<Range>, p: nat, b: nat, n: nat) {
    Aligned(b, n) && Within(p, b, n) && b + Pow2(n) <= count && TouchedBefore(res, b, b + Pow2(n))
  }

  lemma CarveBlockKind(count: nat, i: nat, o: nat, res: seq<Range>, p: nat)
    requires Aligned(i, o) && i + Pow2(o) <= count && Within(p, i, o)
    ensures !Scan(res, i, i + Pow2(o)).1 ==> !Withheld(count, res, p, o)
    ensures Scan(res, i, i + Pow2(o)) == (true, true) ==> Withheld(count, res, p, o)
  {
    ScanInside(res, i, i + Pow2(o));
    if Scan(res, i, i + Pow2(o)) == (true, true) { assert Withholds(count, res, p, i, o); }
    if !Scan(res, i, i + Pow2(o)).1 && Withheld(count, res, p, o) {
      var b: nat, n: nat :| n <= o && Withholds(count, res, p, b, n);
      Nested(p, b, n, i, o);
      ScanParts(res, i, i + Pow2(o), b, b + Pow2(n));
      ScanInside(res, b, b + Pow2(n));
      assert false;
    }
  }

  /** A block that is not decided as a whole withholds what its halves withhold. */
  lemma HalfDecides(count: nat, i: nat, o: nat, res: seq<Range>, p: nat)
    requires o > 0 && Aligned(i, o) && Within(p, i, o)
    requires i + Pow2(o) > count || Scan(res, i, i + Pow2(o)) != (true, true)
    ensures Withheld(count, res, p, o) <==> Withheld(count, res, p, o - 1)
  {
    if b: nat, n: nat :| n <= o && Withholds(count, res, p, b, n) {
      if n == o {
        SameOrderSame(p, i, b, o);
        ScanInside(res, i, i + Pow2(o));
      }
    }
  }

  ghost predicate KindsRight(count: nat, bs: seq<Tile>, res: seq<Range>, o: nat) {
    forall t, p: nat :: t in bs && Within(p, t.head, t.order) ==> (t.kind == Reserved <==> Withheld(count, res, p, o))
  }

  lemma {:induction false} CarveKinds(count: nat, i: nat, o: nat, res: seq<Range>)
    requires Aligned(i, o) && o <= MAX_ORDER
    ensures KindsRight(count, Carve(count, i, o, res, false), res, o)
    decreases o, 1
  {
    var e := i + Pow2(o);
    ScanFacts(res, i, e);
    if i < count {
      if e > count || (Scan(res, i, e).1 && !Scan(res, i, e).0) {
        HalvesKinds(count, i, o, res);
      } else {
        forall p: nat | Within(p, i, o) ensures Withheld(count, res, p, o) <==> Scan(res, i, e).1 {
          CarveBlockKind(count, i, o, res, p);
        }
      }
    }
  }

  lemma {:induction false} HalvesKinds(count: nat, i: nat, o: nat, res: seq<Range>)
    requires Aligned(i, o) && 0 < o <= MAX_ORDER
    requires i + Pow2(o) > count || Scan(res, i, i + Pow2(o)) != (true, true)
    ensures KindsRight(count, Halves(count, i, o, res, false), res, o)
    decreases o, 0
  {
    var c := o - 1;
    var j := i + Pow2(c);
    AlignedDown(i, c, o);
    AlignedStep(i, c);
    CarveKinds(count, i, c, res);
    CarveKinds(count, j, c, res);
    HalfInside(count, i, o, res, i);
    HalfInside(count, i, o, res, j);
    forall t, p: nat | t in Halves(count, i, o, res, false) && Within(p, t.head, t.order)
      ensures t.kind == Reserved <==> Withheld(count, res, p, o)
    {
      HalfDecides(count, i, o, res, p);
    }
  }

  /** The blocks made of a half lie in the whole. */
  lemma HalfInside(count: nat, i: nat, o: nat, res: seq<Range>, j: nat)
    requires o > 0 && o <= MAX_ORDER && (j == i || j == i + Pow2(o - 1)) && Aligned(j, o - 1)
    ensures forall t, p: nat :: t in Carve(count, j, o - 1, res, false) && Within(p, t.head, t.order) ==>
      Within(p, i, o)
  {
    var bs := Carve(count, j, o - 1, res, false);
    CarveCovers(count, j, o - 1, res, false);
    CoversInRange(bs, Min(j, count), Min(j + Pow2(o - 1), count));
    assert Pow2(o) == Pow2(o - 1) + Pow2(o - 1);
    assert bs != [] ==> j < count;
  }

  lemma {:induction false} CoversNoLive(bs: seq<Tile>, a: nat, b: nat)
    requires Covers(bs, a, b)
    ensures forall t :: t in bs ==> t.kind != Live
    decreases |bs|
  {
    if bs != [] { CoversNoLive(bs[1..], a + Pow2(bs[0].order), b); }
  }

  lemma {:induction false} CarveAllKindsRight(count: nat, i: nat, res: seq<Range>)
    requires Aligned(i, MAX_ORDER)
    ensures KindsRight(count, CarveAll(count, i, MAX_ORDER, res, false), res, MAX_ORDER)
    decreases if i < count then count - i else 0
  {
    if i < count {
      CarveKinds(count, i, MAX_ORDER, res);
      AlignedStep(i, MAX_ORDER);
      CarveAllKindsRight(count, i + Pow2(MAX_ORDER), res);
    }
  }

  /**
    What the code withholds, for any ranges: a page stays off the free lists exactly when some aligned block of
    managed pages around it is overlapped by one range and then contained in a later one.
  */
  lemma CarvedWithholds(count: nat, padded: nat, res: seq<Range>)
    requires count <= padded
    ensures var s := Carved(count, padded, res, false);
            && Inv(s) && |s.own| == count
            && forall p: nat :: p < count ==> s.own[p].kind == if Withheld(count, res, p, MAX_ORDER) then Reserved
               else Free
  {
    CarvedPages(count, padded, res, false);
    ZeroAligned(MAX_ORDER);
    CarveAllKindsRight(count, 0, res);
    CarveAllCovers(count, 0, MAX_ORDER, res, false);
    CoversNoLive(CarveAll(count, 0, MAX_ORDER, res, false), 0, count);
  }

  /** Disjoint ranges withhold nothing: every page is free, reserved or not. */
  lemma CarvedReservesNothing(count: nat, padded: nat, res: seq<Range>)
    requires count <= padded && Disjoint(res)
    ensures var s := Carved(count, padded, res, false);
            && Inv(s) && |s.own| == count
            && (forall p :: 0 <= p < count ==> s.own[p].kind == Free)
            && ((forall p :: 0 <= p < count && ReservedPage(res, p) ==> s.own[p].kind != Free)
                <==> (forall p :: 0 <= p < count ==> !ReservedPage(res, p)))
  {
    CarvedPages(count, padded, res, false);
    CarveAllKinds(count, 0, MAX_ORDER, res);
  }

  /** One page of memory, reserved: it ends up on a free list. */
  lemma ReservedButFree()
    ensures ReservedPage([Range(0, 1)], 0) && |Carved(1, 1, [Range(0, 1)], false).own| == 1
    ensures Carved(1, 1, [Range(0, 1)], false).own[0].kind == Free
  {
    CarvedReservesNothing(1, 1, [Range(0, 1)]);
    assert [Range(0, 1)][0].lo <= 0 < [Range(0, 1)][0].hi;
  }

  /** Two pages, both reserved, and the first of them once more before: both are withheld. */
  lemma ReservedTwice(res: seq<Range>, p: nat)
    requires |res| == 2 && res[0] == Range(0, 1) && res[1] == Range(0, 2) && p < 2
    ensures |Carved(2, 2, res, false).own| == 2 && Carved(2, 2, res, false).own[p].kind == Reserved
  {
    CarvedWithholds(2, 2, res);
    ZeroAligned(1);
    assert Pow2(0) == 1 && Pow2(1) == 2;
    assert ContainedFirst(res, 1, 0, 2) && Touches(res[0], 0, 2);
    assert Withholds(2, res, p, 0, 1);
  }

  /** The variant with the two tests exchanged reserves exactly the pages in the ranges. */
  lemma CarvedInsideFirst(count: nat, padded: nat, res: seq<Range>)
    requires count <= padded
    ensures var s := Carved(count, padded, res, true);
            && Inv(s) && |s.own| == count
            && (forall p :: 0 <= p < count ==> (s.own[p].kind == Reserved <==> ReservedPage(res, p)))
  {
    CarvedPages(count, padded, res, true);
    CarveAllKinds(count, 0, MAX_ORDER, res);
  }
}
