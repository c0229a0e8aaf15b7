/** The heap's page allocator is the buddy allocator, and the buddy allocator keeps what the heap relies on. */
module HeapBuddy {
  import opened Common
  import opened Bits
  import B = BuddyModel
  import BR = BuddyRuns
  import opened HeapModel
  import opened HeapOps
  import opened HeapRuns

  function Index(base: nat, b: nat): (i: nat)
    requires base <= b
  {
    (b - base) / 4096
  }

  /** Block `b` of the heap is a live block of the buddy allocator. */
  ghost predicate IsLiveBlock(base: nat, own: seq<B.Tile>, b: nat, n: nat) {
    && base <= b && (b - base) % 4096 == 0
    && var i := Index(base, b);
       i < |own| && own[i].head == i && own[i].kind == B.Live && n == 4096 * Pow2(own[i].order)
  }

  ghost predicate Backed(h: Heap, own: seq<B.Tile>) {
    && h.base % 4096 == 0 && 0 < h.base && h.bytes == 4096 * |own|
    && forall b :: b in h.blocks ==> IsLiveBlock(h.base, own, b, h.blocks[b])
  }

  /** Blocks of different kind share no page. */
  lemma KindsApart(base: nat, own: seq<B.Tile>, i: nat, o: nat, b: nat, n: nat)
    requires B.Tiled(own) && IsLiveBlock(base, own, b, n)
    requires forall p :: Within(p, i, o) ==> 0 <= p < |own| && own[p].kind == B.Free
    ensures Apart(b, n, base + 4096 * i, 4096 * Pow2(o)) && b != base + 4096 * i
  {
    var j := Index(base, b);
    assert B.TileAt(own, j);
    var m := if i <= j then j else i;
    assert Within(m, j, own[j].order) ==> own[m] == own[j];
    assert Within(m, i, o) ==> own[m].kind == B.Free;
    assert Within(i, i, o);
  }

  /** What the buddy allocator answers is a fresh block for the heap. */
  lemma BuddyAnswers(h: Heap, own: seq<B.Tile>, own': seq<B.Tile>, i: nat, o: nat)
    requires B.Tiled(own) && Backed(h, own) && BR.Moves(own, own', i, o, B.Free, B.Live)
    ensures FreshBlock(h, h.base + 4096 * i, 4096 * Pow2(o))
  {
    assert forall p :: Within(p, i, o) ==> 0 <= p < |own| && own[p].kind == B.Free;
    forall b | b in h.blocks
      ensures Apart(b, h.blocks[b], h.base + 4096 * i, 4096 * Pow2(o)) && b != h.base + 4096 * i
    {
      KindsApart(h.base, own, i, o, b, h.blocks[b]);
    }
  }

  /**
    The heap's blocks stay live blocks when the buddy allocator gives out another one or takes one back that
    is not the heap's.
  */
  lemma StaysBacked(h: Heap, own: seq<B.Tile>, own': seq<B.Tile>, i: nat, o: nat, from: B.Kind, to: B.Kind)
    requires B.Tiled(own) && Backed(h, own) && BR.Moves(own, own', i, o, from, to)
    requires forall b :: b in h.blocks ==> !Within(Index(h.base, b), i, o)
    ensures Backed(h, own')
  {
    forall b | b in h.blocks ensures IsLiveBlock(h.base, own', b, h.blocks[b]) {
      assert IsLiveBlock(h.base, own, b, h.blocks[b]);
    }
  }

  /** Different blocks of the heap are different live blocks. */
  lemma OtherBlock(h: Heap, own: seq<B.Tile>, b: nat, d: nat)
    requires B.Tiled(own) && Backed(h, own) && b in h.blocks && d in h.blocks && b != d
    ensures !Within(Index(h.base, d), Index(h.base, b), own[Index(h.base, b)].order)
  {
    assert IsLiveBlock(h.base, own, b, h.blocks[b]) && IsLiveBlock(h.base, own, d, h.blocks[d]);
    var i := Index(h.base, b);
    assert B.TileAt(own, i);
    IndexBack(h.base, b);
    IndexBack(h.base, d);
  }

  lemma IndexBack(base: nat, b: nat)
    requires base <= b && (b - base) % 4096 == 0
    ensures b == base + 4096 * Index(base, b)
  {
  }

  lemma IndexOf(base: nat, i: nat)
    ensures Index(base, base + 4096 * i) == i && (base + 4096 * i - base) % 4096 == 0
  {
  }

  // ----- Heap and buddy allocator together -----

  datatype Joint = Joint(heap: Heap, buddy: B.State)

  ghost predicate JointInv(j: Joint) {
    var heap, buddy, backed := Inv(j.heap), B.Inv(j.buddy), Backed(j.heap, j.buddy.own);
    heap && buddy && backed
  }

  /** `free_pages(q)`; `None` if it would be refused, on which the heap panics. */
  ghost function GiveBack(base: nat, s: B.State, q: nat): (r: Option<B.State>)
    requires B.Inv(s)
    ensures r.Some? ==> B.Inv(r.value)
  {
    var i := if base <= q then Index(base, q) else 0;
    if base <= q && (q - base) % 4096 == 0 && i < |s.own| && i < |s.meta| &&
      B.IsHead(s.own, i, s.meta[i].order, B.Live) then
      BR.ReleaseCorrect(s, i, s.meta[i].order);
      Some(BR.Release(s, i))
    else None
  }

  /** A block of the heap can always be given back, and all others stay live blocks. */
  lemma GiveBackOk(h: Heap, s: B.State, q: nat, h': Heap)
    requires B.Inv(s) && Backed(h, s.own) && q in h.blocks
    requires h'.base == h.base && h'.bytes == h.bytes && h'.blocks == h.blocks - {q}
    ensures GiveBack(h.base, s, q).Some? && Backed(h', GiveBack(h.base, s, q).value.own)
    ensures BR.Accepts(s, Index(h.base, q))
  {
    assert IsLiveBlock(h.base, s.own, q, h.blocks[q]);
    var i := Index(h.base, q);
    BR.TileAtHead(s, i);
    var o := s.own[i].order;
    assert s.meta[i].order == o;
    BR.ReleaseCorrect(s, i, o);
    forall d | d in h'.blocks ensures !Within(Index(h.base, d), i, o) { OtherBlock(h, s.own, q, d); }
    StaysBacked(h', s.own, BR.Release(s, i).own, i, o, B.Live, B.Free);
  }

  /** The pages that the sweep gives back, one after the other. */
  ghost function SweepChainBack(h: Heap, s: B.State, c: nat, i: nat): (r: Option<B.State>)
    requires |h.chains| == CLASSES && c < CLASSES && 0 < i && B.Inv(s)
    ensures r.Some? ==> B.Inv(r.value)
    decreases |h.chains[c]| - i, h, s
  {
    if i >= |h.chains[c]| then Some(s)
    else if IsEmpty(h, h.chains[c][i], c) then
      var t := GiveBack(h.base, s, h.chains[c][i]);
      if t.None? then None else SweepChainBack(Drop(h, c, i), t.value, c, i)
    else SweepChainBack(h, s, c, i + 1)
  }

  ghost function SweepBack(h: Heap, s: B.State, c: nat): (r: Option<B.State>)
    requires |h.chains| == CLASSES && c <= CLASSES && B.Inv(s)
    ensures r.Some? ==> B.Inv(r.value)
    decreases CLASSES - c, h, s
  {
    if c == CLASSES then Some(s)
    else
      var t := SweepChainBack(h, s, c, 1);
      if t.None? then None else SweepBack(SweepChain(h, c, 1), t.value, c + 1)
  }

  lemma SlabInBlocks(h: Heap, c: nat, i: nat)
    requires Inv(h) && c < CLASSES && i < |h.chains[c]|
    ensures h.chains[c][i] in h.blocks
  {
    var q := h.chains[c][i];
    assert q in h.chains[c] && SlabPage(h.chains, h.table, h.blocks, q);
  }

  lemma {:induction false} SweepChainBacked(h: Heap, s: B.State, c: nat, i: nat)
    requires Inv(h) && B.Inv(s) && Backed(h, s.own) && c < CLASSES && 0 < i
    ensures SweepChainBack(h, s, c, i).Some? && Backed(SweepChain(h, c, i), SweepChainBack(h, s, c, i).value.own)
    decreases |h.chains[c]| - i
  {
    if i < |h.chains[c]| {
      if IsEmpty(h, h.chains[c][i], c) {
        SlabInBlocks(h, c, i);
        GiveBackOk(h, s, h.chains[c][i], Drop(h, c, i));
        DropInv(h, c, i);
        SweepChainBacked(Drop(h, c, i), GiveBack(h.base, s, h.chains[c][i]).value, c, i);
      } else {
        SweepChainBacked(h, s, c, i + 1);
      }
    }
  }

  lemma {:induction false} SweepBacked(h: Heap, s: B.State, c: nat)
    requires Inv(h) && B.Inv(s) && Backed(h, s.own) && c <= CLASSES
    ensures SweepBack(h, s, c).Some? && Backed(SweepFrom(h, c), SweepBack(h, s, c).value.own)
    decreases CLASSES - c
  {
    if c < CLASSES {
      SweepChainBacked(h, s, c, 1);
      SweepChainInv(h, c, 1);
      SweepBacked(SweepChain(h, c, 1), SweepChainBack(h, s, c, 1).value, c + 1);
    }
  }

  /** What the page allocator says to a request: the heap need not ask it, asks for too much, or is told no or yes. */
  datatype Reply = NotAsked | TooLarge | SweepFailed | NoPages | Granted(answer: nat, after: B.State)

  ghost function Ask(base: nat, s: B.State, o: nat): (r: Reply)
    requires B.Inv(s)
  {
    var (i, t) := BR.Alloc(s, o);
    if i.None? then NoPages else Granted(base + 4096 * i.value, t)
  }

  /** The question a request comes to; a slab that must grow sweeps first. */
  ghost function ReplyTo(j: Joint, l: Layout): (r: Reply)
    requires B.Inv(j.buddy) && Chained(j.heap)
  {
    match RouteOf(l)
    case Nothing => NotAsked
    case ToSlab(c) =>
      if FirstFree(j.heap, j.heap.chains[c]) < |j.heap.chains[c]| then NotAsked
      else
        var s := SweepBack(j.heap, j.buddy, 0);
        if s.None? then SweepFailed else Ask(j.heap.base, s.value, 0)
    case ToPages =>
      var o := OrderFrom(PagesFor(Needed(l)), 0);
      if o.None? then TooLarge else Ask(j.heap.base, j.buddy, o.value)
  }

  ghost function Finish(j: Joint, l: Layout, a: Reply): (r: Option<(Joint, nat)>)
    requires Chained(j.heap)
  {
    if a.NotAsked? || a.Granted? then
      var r := Alloc(j.heap, l, if a.Granted? then a.answer else 0);
      if r.None? then None else Some((Joint(r.value.0, if a.Granted? then a.after else j.buddy), r.value.1))
    else None
  }

  /** `alloc` with the buddy allocator behind it; `None` is a panic. */
  ghost function JointAlloc(j: Joint, l: Layout): (r: Option<(Joint, nat)>)
    requires B.Inv(j.buddy) && Chained(j.heap)
  {
    Finish(j, l, ReplyTo(j, l))
  }

  /** `dealloc` of a live object with the buddy allocator behind it; `None` is a panic. */
  ghost function JointDealloc(j: Joint, p: nat): (r: Option<Joint>)
    requires B.Inv(j.buddy) && IsLive(j.heap, p)
  {
    var h := Dealloc(j.heap, p);
    if h.None? then None
    else if p in j.heap.large && PageOf(p) !in j.heap.table then
      var s := GiveBack(j.heap.base, j.buddy, j.heap.large[p].block);
      if s.None? then None else Some(Joint(h.value, s.value))
    else Some(Joint(h.value, j.buddy))
  }

  /** Block `b` of `n` bytes is new to the heap and a live block of the buddy allocator, as all of the heap's are. */
  ghost predicate Ready(h: Heap, own: seq<B.Tile>, b: nat, n: nat) {
    var unused, backed, live := FreshBlock(h, b, n), Backed(h, own), IsLiveBlock(h.base, own, b, n);
    unused && backed && live
  }

  lemma TakenBacked(h: Heap, own: seq<B.Tile>, own': seq<B.Tile>, i: nat, o: nat, b: nat, n: nat)
    requires B.Tiled(own) && Backed(h, own) && Handed(own, own', i, o) && b == h.base + 4096 * i && n == 4096 * Pow2(o)
    ensures Ready(h, own', b, n)
  {
    BuddyAnswers(h, own, own', i, o);
    IndexOf(h.base, i);
    forall b | b in h.blocks ensures !Within(Index(h.base, b), i, o) {
      assert IsLiveBlock(h.base, own, b, h.blocks[b]);
    }
    StaysBacked(h, own, own', i, o, B.Free, B.Live);
  }

  lemma GrownBacked(h: Heap, own: seq<B.Tile>, r: Heap, b: nat, n: nat)
    requires Backed(h, own) && IsLiveBlock(h.base, own, b, n) && r.base == h.base && r.bytes == h.bytes
    requires r.blocks == h.blocks[b := n]
    ensures Backed(r, own)
  {
  }

  /** Block `(i, o)` was free and is now a live block. */
  ghost predicate Handed(own: seq<B.Tile>, own': seq<B.Tile>, i: nat, o: nat) {
    var moves, head := BR.Moves(own, own', i, o, B.Free, B.Live), B.IsHead(own', i, o, B.Live);
    moves && head
  }

  lemma AllocHands(s: B.State, o: nat)
    requires B.Inv(s) && BR.Alloc(s, o).0.Some?
    ensures B.Inv(BR.Alloc(s, o).1) && Handed(s.own, BR.Alloc(s, o).1.own, BR.Alloc(s, o).0.value, o)
  {
    BR.AllocCorrect(s, o);
  }

  lemma AskHands(base: nat, s: B.State, o: nat) returns (i: nat)
    requires B.Inv(s) && Ask(base, s, o).Granted?
    ensures Ask(base, s, o).answer == base + 4096 * i && B.Inv(Ask(base, s, o).after)
    ensures Handed(s.own, Ask(base, s, o).after.own, i, o)
  {
    AllocHands(s, o);
    i := BR.Alloc(s, o).0.value;
  }

  /** A granted block is fresh, and is the heap's once the heap takes it. */
  lemma AskBacked(h: Heap, s: B.State, o: nat, a: Reply, n: nat)
    requires B.Inv(s) && a == Ask(h.base, s, o) && a.Granted? && n == 4096 * Pow2(o)
    requires Backed(h, s.own)
    ensures var ready := Ready(h, a.after.own, a.answer, n); B.Inv(a.after) && ready
  {
    var i := AskHands(h.base, s, o);
    TakenBacked(h, s.own, a.after.own, i, o, a.answer, n);
  }

  /** The page a slab grows by. */
  lemma SlabGrows(h: Heap, c: nat, l: Layout, a: Reply)
    requires Chained(h) && c < CLASSES && FirstFree(h, h.chains[c]) == |h.chains[c]| && a.Granted?
    requires Backed(Sweep(h), a.after.own) && IsLiveBlock(h.base, a.after.own, a.answer, PAGE)
    requires Sweep(h).base == h.base
    ensures Backed(SlabAlloc(h, c, l, a.answer).0, a.after.own)
  {
    GrownBacked(Sweep(h), a.after.own, AddSlab(Sweep(h), c, a.answer), a.answer, PAGE);
    SlabAllocBlocks(h, c, l, a.answer);
  }

  lemma {:induction false} SweepChainBase(h: Heap, c: nat, i: nat)
    requires |h.chains| == CLASSES && c < CLASSES && 0 < i
    ensures SweepChain(h, c, i).base == h.base
    decreases |h.chains[c]| - i
  {
    if i < |h.chains[c]| {
      if IsEmpty(h, h.chains[c][i], c) { SweepChainBase(Drop(h, c, i), c, i); } else { SweepChainBase(h, c, i + 1); }
    }
  }

  lemma {:induction false} SweepBase(h: Heap, c: nat)
    requires |h.chains| == CLASSES && c <= CLASSES
    ensures SweepFrom(h, c).base == h.base
    decreases CLASSES - c
  {
    if c < CLASSES {
      SweepChainBase(h, c, 1);
      SweepBase(SweepChain(h, c, 1), c + 1);
    }
  }

  lemma SlabAllocBlocks(h: Heap, c: nat, l: Layout, answer: nat)
    requires Chained(h) && c < CLASSES && FirstFree(h, h.chains[c]) == |h.chains[c]|
    ensures var (r, a) := (SlabAlloc(h, c, l, answer).0, AddSlab(Sweep(h), c, answer));
            r.blocks == a.blocks && r.base == a.base && r.bytes == a.bytes
  {
    NewSlotsFacts(answer, c);
  }

  /** The object a request gives, on heap `r`, is new and aligned as asked. */
  ghost predicate Serves(h: Heap, l: Layout, r: Heap, p: nat) {
    if l.size == 0 then r == h && p == Pow2(l.log) else Gains(h, r, p, l) && p % Pow2(l.log) == 0
  }

  /** What the reply must be like for the allocation to go well. */
  ghost predicate GoodReply(j: Joint, l: Layout, a: Reply)
    requires Chained(j.heap)
  {
    && (a.NotAsked? || a.Granted? ==>
          var answer := if a.Granted? then a.answer else 0;
          GoodAnswer(j.heap, l, answer) && Alloc(j.heap, l, answer).Some?)
    && (a.Granted? ==> B.Inv(a.after) && Backed(Alloc(j.heap, l, a.answer).value.0, a.after.own))
    && (a.NotAsked? ==> Backed(Alloc(j.heap, l, 0).value.0, j.buddy.own))
  }

  lemma SlabRoute(h: Heap, l: Layout, c: nat, answer: nat)
    requires Chained(h) && RouteOf(l) == ToSlab(c)
    ensures Alloc(h, l, answer) == Some(SlabAlloc(h, c, l, answer))
    ensures GoodAnswer(h, l, answer) <==>
      (FirstFree(h, h.chains[c]) == |h.chains[c]| ==> FreshBlock(Sweep(h), answer, PAGE))
  {
  }

  lemma PagesRoute(h: Heap, l: Layout, o: nat, answer: nat)
    requires Chained(h) && RouteOf(l) == ToPages && OrderFrom(PagesFor(Needed(l)), 0) == Some(o)
    ensures Alloc(h, l, answer) == Some(LargeAlloc(h, l, answer, o))
    ensures GoodAnswer(h, l, answer) <==> FreshBlock(h, answer, PAGE * Pow2(o))
  {
  }

  /** Without a question the heap's blocks stay the same. */
  lemma QuietReply(j: Joint, l: Layout)
    requires Chained(j.heap) && Backed(j.heap, j.buddy.own)
    requires RouteOf(l).ToSlab? ==> FirstFree(j.heap, j.heap.chains[RouteOf(l).c]) < |j.heap.chains[RouteOf(l).c]|
    requires !RouteOf(l).ToPages?
    ensures GoodReply(j, l, NotAsked)
  {
    var r := Alloc(j.heap, l, 0).value.0;
    assert r.blocks == j.heap.blocks && r.base == j.heap.base && r.bytes == j.heap.bytes;
  }

  lemma SlabReply(j: Joint, l: Layout, c: nat)
    requires JointInv(j) && Chained(j.heap) && RouteOf(l) == ToSlab(c)
    requires FirstFree(j.heap, j.heap.chains[c]) == |j.heap.chains[c]|
    ensures GoodReply(j, l, ReplyTo(j, l)) && !ReplyTo(j, l).SweepFailed?
  {
    SweepBacked(j.heap, j.buddy, 0);
    SweepBase(j.heap, 0);
    var s := SweepBack(j.heap, j.buddy, 0).value;
    var a := Ask(j.heap.base, s, 0);
    assert ReplyTo(j, l) == a;
    if a.Granted? {
      assert Pow2(0) == 1;
      AskBacked(Sweep(j.heap), s, 0, a, PAGE);
      SlabGrows(j.heap, c, l, a);
      SlabRoute(j.heap, l, c, a.answer);
    }
  }

  lemma PagesReply(j: Joint, l: Layout, o: nat)
    requires JointInv(j) && Chained(j.heap) && RouteOf(l) == ToPages && OrderFrom(PagesFor(Needed(l)), 0) == Some(o)
    ensures GoodReply(j, l, ReplyTo(j, l)) && !ReplyTo(j, l).SweepFailed?
  {
    var a := Ask(j.heap.base, j.buddy, o);
    if a.Granted? {
      AskBacked(j.heap, j.buddy, o, a, PAGE * Pow2(o));
      GrownBacked(j.heap, a.after.own, LargeAlloc(j.heap, l, a.answer, o).0, a.answer, PAGE * Pow2(o));
      PagesRoute(j.heap, l, o, a.answer);
    }
  }

  /** The buddy allocator's answers are good, and what the sweep gives back is never refused. */
  lemma ReplyGood(j: Joint, l: Layout)
    requires JointInv(j) && Chained(j.heap)
    ensures GoodReply(j, l, ReplyTo(j, l)) && !ReplyTo(j, l).SweepFailed?
  {
    match RouteOf(l)
    case Nothing => QuietReply(j, l);
    case ToSlab(c) =>
      if FirstFree(j.heap, j.heap.chains[c]) < |j.heap.chains[c]| { QuietReply(j, l); } else { SlabReply(j, l, c); }
    case ToPages =>
      var o := OrderFrom(PagesFor(Needed(l)), 0);
      if o.Some? { PagesReply(j, l, o.value); }
  }

  lemma FinishWell(j: Joint, l: Layout, a: Reply)
    requires Inv(j.heap) && B.Inv(j.buddy) && Chained(j.heap) && GoodReply(j, l, a) && (a.NotAsked? || a.Granted?)
    ensures Finish(j, l, a).Some? && JointInv(Finish(j, l, a).value.0)
    ensures Serves(j.heap, l, Finish(j, l, a).value.0.heap, Finish(j, l, a).value.1)
  {
    AllocInv(j.heap, l, if a.Granted? then a.answer else 0);
  }

  /** The free lists of order `o` and above are empty. */
  ghost predicate NoBlock(s: B.State, o: nat)
    requires B.Inv(s)
  {
    forall n :: o <= n <= B.MAX_ORDER ==> s.lists[n] == []
  }

  lemma AskIff(base: nat, s: B.State, o: nat)
    requires B.Inv(s)
    ensures Ask(base, s, o) == NoPages <==> NoBlock(s, o)
    ensures Ask(base, s, o) == NoPages || Ask(base, s, o).Granted?
  {
    if o <= B.MAX_ORDER && BR.FirstFit(s.lists, o) <= B.MAX_ORDER {
      assert s.lists[BR.FirstFit(s.lists, o)] != [];
    }
  }

  /**
    A small request finds no free slot in its class and no free block after the sweep; a large one is beyond the
    largest block, or finds none free that is large enough.
  */
  ghost predicate OutOfMemory(j: Joint, l: Layout)
    requires JointInv(j) && Chained(j.heap)
  {
    match RouteOf(l)
    case Nothing => false
    case ToSlab(c) =>
      && FirstFree(j.heap, j.heap.chains[c]) == |j.heap.chains[c]|
      && (SweepBacked(j.heap, j.buddy, 0);
          NoBlock(SweepBack(j.heap, j.buddy, 0).value, 0))
    case ToPages =>
      var o := OrderFrom(PagesFor(Needed(l)), 0);
      o.None? || NoBlock(j.buddy, o.value)
  }

  lemma OutIff(j: Joint, l: Layout)
    requires JointInv(j) && Chained(j.heap)
    ensures ReplyTo(j, l) in {TooLarge, NoPages} <==> OutOfMemory(j, l)
  {
    match RouteOf(l)
    case Nothing =>
    case ToSlab(c) =>
      SweepBacked(j.heap, j.buddy, 0);
      AskIff(j.heap.base, SweepBack(j.heap, j.buddy, 0).value, 0);
    case ToPages =>
      var o := OrderFrom(PagesFor(Needed(l)), 0);
      if o.Some? { AskIff(j.heap.base, j.buddy, o.value); }
  }

  /** An allocation panics exactly when memory is out; otherwise all stays right. */
  lemma JointAllocInv(j: Joint, l: Layout)
    requires JointInv(j) && Chained(j.heap)
    ensures JointAlloc(j, l).None? <==> OutOfMemory(j, l)
    ensures JointAlloc(j, l).Some? ==>
              JointInv(JointAlloc(j, l).value.0) &&
                Serves(j.heap, l, JointAlloc(j, l).value.0.heap, JointAlloc(j, l).value.1)
  {
    ReplyGood(j, l);
    OutIff(j, l);
    var a := ReplyTo(j, l);
    if a.NotAsked? || a.Granted? { FinishWell(j, l, a); }
  }

  /** A release of a live object never panics: neither its own tests nor `free_pages` refuse it. */
  lemma JointDeallocInv(j: Joint, p: nat)
    requires JointInv(j) && IsLive(j.heap, p)
    ensures JointDealloc(j, p).Some? && JointInv(JointDealloc(j, p).value)
    ensures Gains(JointDealloc(j, p).value.heap, j.heap, p, LayoutAt(j.heap, p))
  {
    DeallocInv(j.heap, p);
    if p in j.heap.large {
      assert LargeFits(j.heap.table, j.heap.blocks, p, j.heap.large[p]);
      GiveBackOk(j.heap, j.buddy, j.heap.large[p].block, Dealloc(j.heap, p).value);
    }
  }

  // ----- All runs -----

  /** Steps of the heap's clients, and allocations and releases of blocks by others. */
  datatype JointOp = HeapAlloc(l: Layout) | HeapFree(p: nat) | BlockAlloc(order: nat) | BlockFree(i: nat, order: nat)

  /** Nobody but the heap releases its blocks. */
  ghost predicate Foreign(j: Joint, i: nat) {
    forall b :: b in j.heap.blocks ==> j.heap.base <= b && Index(j.heap.base, b) != i
  }

  ghost predicate JointEnabled(j: Joint, op: JointOp)
    requires JointInv(j)
  {
    match op
    case HeapAlloc(l) => Chained(j.heap) && !OutOfMemory(j, l)
    case HeapFree(p) => IsLive(j.heap, p)
    case BlockAlloc(order) => true
    case BlockFree(i, order) => B.IsHead(j.buddy.own, i, order, B.Live) && Foreign(j, i)
  }

  ghost function JointStep(j: Joint, op: JointOp): (r: Joint)
    requires JointInv(j) && JointEnabled(j, op)
  {
    match op
    case HeapAlloc(l) =>
      JointAllocInv(j, l);
      JointAlloc(j, l).value.0
    case HeapFree(p) =>
      JointDeallocInv(j, p);
      JointDealloc(j, p).value
    case BlockAlloc(order) => Joint(j.heap, BR.Alloc(j.buddy, order).1)
    case BlockFree(i, order) =>
      BR.ReleaseCorrect(j.buddy, i, order);
      Joint(j.heap, BR.Release(j.buddy, i))
  }

  lemma ForeignFree(j: Joint, i: nat, o: nat)
    requires JointInv(j) && B.IsHead(j.buddy.own, i, o, B.Live) && Foreign(j, i)
    ensures j.buddy.meta[i].order == o && JointInv(Joint(j.heap, BR.Release(j.buddy, i)))
  {
    BR.ReleaseCorrect(j.buddy, i, o);
    forall b | b in j.heap.blocks ensures !Within(Index(j.heap.base, b), i, o) {
      assert IsLiveBlock(j.heap.base, j.buddy.own, b, j.heap.blocks[b]);
      assert B.TileAt(j.buddy.own, i);
    }
    StaysBacked(j.heap, j.buddy.own, BR.Release(j.buddy, i).own, i, o, B.Live, B.Free);
  }

  lemma ForeignAlloc(j: Joint, o: nat)
    requires JointInv(j)
    ensures JointInv(Joint(j.heap, BR.Alloc(j.buddy, o).1))
  {
    if BR.Alloc(j.buddy, o).0.Some? {
      var i := BR.Alloc(j.buddy, o).0.value;
      AllocHands(j.buddy, o);
      TakenBacked(j.heap, j.buddy.own, BR.Alloc(j.buddy, o).1.own, i, o, j.heap.base + 4096 * i, 4096 * Pow2(o));
    } else {
      BR.AllocCorrect(j.buddy, o);
    }
  }

  lemma JointStepInv(j: Joint, op: JointOp)
    requires JointInv(j) && JointEnabled(j, op)
    ensures JointInv(JointStep(j, op))
  {
    match op
    case HeapAlloc(l) => JointAllocInv(j, l);
    case HeapFree(p) => JointDeallocInv(j, p);
    case BlockAlloc(order) =>
      ForeignAlloc(j, order);
    case BlockFree(i, order) => ForeignFree(j, i, order);
  }

  ghost predicate JointLegal(j: Joint, ops: seq<JointOp>)
    requires JointInv(j)
    decreases |ops|
  {
    ops != [] ==> JointEnabled(j, ops[0]) && (JointStepInv(j, ops[0]); JointLegal(JointStep(j, ops[0]), ops[1..]))
  }

  ghost function JointRun(j: Joint, ops: seq<JointOp>): (r: Joint)
    requires JointInv(j) && JointLegal(j, ops)
    decreases |ops|
  {
    if ops == [] then j
    else
      JointStepInv(j, ops[0]);
      JointRun(JointStep(j, ops[0]), ops[1..])
  }

  /** Heap and buddy allocator stay right together, whoever else allocates and releases blocks in between. */
  lemma {:induction false} JointRunInv(j: Joint, ops: seq<JointOp>)
    requires JointInv(j) && JointLegal(j, ops)
    ensures JointInv(JointRun(j, ops))
    decreases |ops|
  {
    if ops != [] {
      JointStepInv(j, ops[0]);
      JointRunInv(JointStep(j, ops[0]), ops[1..]);
    }
  }

  /** An empty heap over a consistent buddy allocator. */
  ghost function Begin(base: nat, s: B.State): (j: Joint)
    requires base % 4096 == 0 && 0 < base && B.Inv(s)
    ensures JointInv(j)
  {
    Joint(EmptyHeap(base, 4096 * |s.own|), s)
  }

  /**
    From an empty heap over a consistent buddy allocator: live objects are always apart, aligned and inside the
    region, every one of them can be released without a panic, and an allocation panics exactly when memory is out.
  */
  lemma JointSafe(base: nat, s: B.State, ops: seq<JointOp>, p: nat, q: nat, l: Layout)
    requires base % 4096 == 0 && 0 < base && B.Inv(s) && JointLegal(Begin(base, s), ops)
    ensures var j := JointRun(Begin(base, s), ops);
            && JointInv(j) && Chained(j.heap)
            && (IsLive(j.heap, p) ==> JointDealloc(j, p).Some? && p % Pow2(LayoutAt(j.heap, p).log) == 0)
            && (IsLive(j.heap, p) && IsLive(j.heap, q) && p != q ==>
                 Apart(p, LayoutAt(j.heap, p).size, q, LayoutAt(j.heap, q).size))
            && (JointAlloc(j, l).None? <==> OutOfMemory(j, l))
  {
    var j := JointRun(Begin(base, s), ops);
    JointRunInv(Begin(base, s), ops);
    ChainsFree(j.heap);
    JointAllocInv(j, l);
    if IsLive(j.heap, p) {
      JointDeallocInv(j, p);
      LiveInside(j.heap, p);
      if IsLive(j.heap, q) && p != q { ObjectsDisjoint(j.heap, p, q); }
    }
  }
}
