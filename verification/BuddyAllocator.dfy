/**
  The allocator of kernel/src/mem.rs in its own form: free lists threaded through the first word of
  each free block, and one metadata record per page, all updated in place.
*/
module BuddyAllocator {
  import opened Bits
  import opened Common
  import opened BuddyModel
  import opened BuddyRuns
  import opened BuddyInit
  import BuddyTheorems

  const PAGE_SIZE: nat := 4096
  /** `usize::MAX`, the end of a free list. */
  const FREE_NONE: nat := 0xFFFF_FFFF_FFFF_FFFF

  datatype Result = Ok | Err

  function First(l: seq<nat>): (h: nat) {
    if l == [] then FREE_NONE else l[0]
  }

  /** The first words of the listed blocks lead from each to the next. */
  ghost predicate Threads(words: seq<nat>, l: seq<nat>) {
    forall k :: 0 <= k < |l| ==> l[k] < |words| && words[l[k]] == First(l[k + 1..])
  }

  class Buddies {
    const base: nat
    const realCount: nat
    const pageCount: nat
    const meta: array<PageMeta>
    /** The first machine word of every page. */
    const words: array<nat>
    const heads: array<nat>
    ghost var own: seq<Tile>
    ghost var lists: seq<seq<nat>>

    ghost function St(): (s: State)
      reads this, meta
    {
      State(own, lists, meta[..])
    }

    ghost predicate Threaded()
      reads this, words, heads
    {
      && words != heads && heads.Length == MAX_ORDER + 1 == |lists|
      && words.Length == meta.Length == pageCount <= FREE_NONE
      && var linked := forall o :: 0 <= o <= MAX_ORDER ==> heads[o] == First(lists[o]) && Threads(words[..], lists[o]);
         linked
    }

    ghost predicate Valid()
      reads this, meta, words, heads
    {
      var consistent := Inv(St());
      Threaded() && consistent && |own| == realCount && base % PAGE_SIZE == 0
    }

    /** Pages set up so far, while `init` runs. */
    ghost predicate Setting()
      reads this, meta, words, heads
    {
      var growing := Growing(St(), realCount);
      Threaded() && growing
    }

    /** Arrays as `init` leaves them before it builds the lists. */
    constructor (base: nat, count: nat)
      requires base % PAGE_SIZE == 0 && count + Pow2(MAX_ORDER) <= FREE_NONE
      ensures Setting() && realCount == count <= pageCount && this.base == base
      ensures St() == Blank(count, pageCount)
    {
      var orderSize := Pow2(MAX_ORDER);
      var padded := (count + orderSize - 1) / orderSize * orderSize;
      this.base, realCount, pageCount := base, count, padded;
      meta := new PageMeta[padded](i => if i < count then PageMeta(0, false) else PageMeta(MAX_ORDER, true));
      words := new nat[padded](i => 0);
      heads := new nat[MAX_ORDER + 1](i => FREE_NONE);
      own, lists := [], seq(MAX_ORDER + 1, o => []);
      new;
      assert meta[..] == Blank(count, padded).meta;
      BlankGrowing(count, padded);
    }

    /** The rest of `init`: the free lists. */
    method Init(reserved: seq<Range>)
      requires Setting() && base % PAGE_SIZE == 0 && St() == Blank(realCount, pageCount)
      modifies this`own, this`lists, meta, words, heads
      ensures Valid()
      ensures reserved == [] ==> St() == Plain(realCount, pageCount)
      ensures reserved != [] ==> St() == Carved(realCount, pageCount, reserved, false)
    {
      if reserved == [] {
        PlainAll();
        PlainCorrect(realCount, pageCount);
      } else {
        CarveAllReady(realCount, pageCount, reserved, false);
        CarveEvery(MAX_ORDER, reserved);
        CarvedPages(realCount, pageCount, reserved, false);
      }
    }

    /** `push` of a block of fresh pages. */
    method PlaceFree(idx: nat, order: nat)
      requires Setting() && Next(St(), realCount, Tile(idx, order, BuddyModel.Free))
      modifies this`own, this`lists, meta, words, heads
      ensures Setting() && St() == Extend(old(St()), Tile(idx, order, BuddyModel.Free))
      ensures |own| == old(|own|) + Pow2(order)
    {
      ExtendGrowing(St(), realCount, Tile(idx, order, BuddyModel.Free));
      FreshNotListed(St());
      Push(idx, order);
      own := own + Repeat(Tile(idx, order, BuddyModel.Free), Pow2(order));
    }

    /** Blocks `rest` are still to be placed, and end in state `result`. */
    ghost predicate Left(idx: nat, rest: seq<Tile>, result: State)
      reads this, meta, words, heads
    {
      var setting, covers := Setting(), Covers(rest, idx, realCount);
      var plain, fits := IsPlain(rest, idx, realCount), Fits(rest, pageCount);
      && setting && idx == |own| && covers && plain && fits
      && var ends := Build(St(), rest) == result; ends
    }

    /** One round of either loop below. */
    method PlaceNext(idx: nat, order: nat, ghost rest: seq<Tile>, ghost result: State) returns (next: nat,
            ghost more: seq<Tile>)
      requires Left(idx, rest, result) && idx < realCount && OrderFor(realCount - idx, order)
      modifies this`own, this`lists, meta, words, heads
      ensures next == idx + Pow2(order) && Left(next, more, result) && |more| < |rest|
    {
      next := idx + Pow2(order);
      PlainNext(rest, idx, realCount, order, next);
      more := rest[1..];
      BuildStep(St(), Tile(idx, order, BuddyModel.Free), more);
      PlaceFree(idx, order);
    }

    /** `ilog2(rest).min(MAX_ORDER)` */
    method LogOrder(rest: nat) returns (o: nat)
      requires rest > 0
      ensures OrderFor(rest, o)
    {
      o := 0;
      while o < MAX_ORDER && Pow2(o + 1) <= rest
        invariant o <= MAX_ORDER && Pow2(o) <= rest
      {
        o := o + 1;
      }
    }

    /** The two loops of `init` for no reservations. */
    method PlainAll()
      requires Setting() && own == []
      modifies this`own, this`lists, meta, words, heads
      ensures Threaded() && Fits(PlainBlocks(0, realCount), pageCount)
      ensures St() == Build(old(St()), PlainBlocks(0, realCount))
    {
      PlainStarts(realCount);
      PlainFits(0, realCount, MAX_ORDER, pageCount);
      PlainIsPlain(0, realCount);
      PlainLoops(PlainBlocks(0, realCount), Build(St(), PlainBlocks(0, realCount)));
    }

    method PlainLoops(ghost blocks: seq<Tile>, ghost result: State)
      requires Left(0, blocks, result)
      modifies this`own, this`lists, meta, words, heads
      ensures Threaded() && St() == result
    {
      ghost var rest := blocks;
      var idx: nat := 0;
      var orderSize := Pow2(MAX_ORDER);
      while idx + orderSize <= realCount
        invariant Left(idx, rest, result)
      {
        idx, rest := PlaceNext(idx, MAX_ORDER, rest, result);
      }
      while idx < realCount
        invariant Left(idx, rest, result)
        decreases |rest|
      {
        var order := LogOrder(realCount - idx);
        idx, rest := PlaceNext(idx, order, rest, result);
      }
    }

    /** `blocks` have been added to `s0`, and page `next` follows. */
    ghost predicate Built(s0: State, blocks: seq<Tile>, next: nat)
      reads this, meta, words, heads
    {
      var setting, fits := Setting(), Fits(blocks, pageCount);
      && setting && fits && |own| == Min(next, realCount) && |s0.lists| == MAX_ORDER + 1 && |s0.meta| == pageCount
      && var built := St() == Build(s0, blocks); built
    }

    /** `carve`, on the pages that are next. */
    method CarveBlock(idx: nat, order: nat, reserved: seq<Range>, ghost blocks: seq<Tile>)
      requires Setting() && Aligned(idx, order) && order <= MAX_ORDER && |own| == Min(idx, realCount)
      requires blocks == Carve(realCount, idx, order, reserved, false)
      modifies this`own, this`lists, meta, words, heads
      ensures Built(old(St()), blocks, idx + Pow2(order))
      decreases order
    {
      CarveFits(realCount, idx, order, reserved, false, pageCount);
      var e := idx + Pow2(order);
      if idx >= realCount {
        return;
      }
      ScanFacts(reserved, idx, e);
      if e > realCount {
        CarveTwo(idx, order, reserved, blocks);
        return;
      }
      var inside, overlap := ScanRanges(idx, e, reserved);
      if !overlap {
        PlaceFree(idx, order);
        return;
      }
      if inside {
        ExtendGrowing(St(), realCount, Tile(idx, order, Reserved));
        meta[idx] := PageMeta(RESERVED_ORDER, true);
        own := own + Repeat(Tile(idx, order, Reserved), Pow2(order));
        return;
      }
      CarveTwo(idx, order, reserved, blocks);
    }

    /** The two recursive calls of `carve`. */
    method CarveTwo(idx: nat, order: nat, reserved: seq<Range>, ghost blocks: seq<Tile>)
      requires Setting() && Aligned(idx, order) && 0 < order <= MAX_ORDER && |own| == Min(idx, realCount)
      requires blocks == Halves(realCount, idx, order, reserved, false)
      modifies this`own, this`lists, meta, words, heads
      ensures Built(old(St()), blocks, idx + Pow2(order))
      decreases order, 0
    {
      var half := order - 1;
      var mid := idx + Pow2(half);
      ghost var s0 := St();
      ghost var left, right := Carve(realCount, idx, half, reserved, false),
        Carve(realCount, mid, half, reserved, false);
      HalvesAre(realCount, idx, order, reserved, false, half, mid, left, right);
      AlignedDown(idx, half, order);
      AlignedStep(idx, half);
      CarveBlock(idx, half, reserved, left);
      CarveBlock(mid, half, reserved, right);
      BuildJoin(s0, left, right);
    }

    /** The state of the loop below at page `idx`; `result` is what it will end with. */
    ghost predicate CarveLeft(idx: nat, top: nat, reserved: seq<Range>, rest: seq<Tile>, result: State)
      reads this, meta, words, heads
    {
      var setting, aligned, fits := Setting(), Aligned(idx, top), Fits(rest, pageCount);
      var left := rest == CarveAll(realCount, idx, top, reserved, false);
      && setting && aligned && fits && left && |own| == Min(idx, realCount)
      && var ends := Build(St(), rest) == result; ends
    }

    method CarveNext(idx: nat, top: nat, reserved: seq<Range>, ghost rest: seq<Tile>, ghost result: State)
      returns (next: nat, ghost more: seq<Tile>)
      requires CarveLeft(idx, top, reserved, rest, result) && idx < realCount && top <= MAX_ORDER
      modifies this`own, this`lists, meta, words, heads
      ensures idx < next && CarveLeft(next, top, reserved, more, result)
    {
      next := idx + Pow2(top);
      more := CarveAll(realCount, next, top, reserved, false);
      ghost var here := Carve(realCount, idx, top, reserved, false);
      assert rest == here + more;
      BuildJoin(St(), here, more);
      AlignedStep(idx, top);
      CarveBlock(idx, top, reserved, here);
    }

    /** The loop of `init` over the largest blocks. */
    method CarveEvery(top: nat, reserved: seq<Range>)
      requires Setting() && own == [] && top <= MAX_ORDER
      requires Fits(CarveAll(realCount, 0, top, reserved, false), pageCount)
      modifies this`own, this`lists, meta, words, heads
      ensures Threaded() && St() == Build(old(St()), CarveAll(realCount, 0, top, reserved, false))
    {
      var idx: nat := 0;
      ZeroAligned(top);
      ghost var rest := CarveAll(realCount, 0, top, reserved, false);
      ghost var result := Build(St(), rest);
      while idx < realCount
        invariant CarveLeft(idx, top, reserved, rest, result)
      {
        idx, rest := CarveNext(idx, top, reserved, rest, result);
      }
      assert rest == [];
    }

    /** The loop of `carve` over the reserved ranges. */
    method ScanRanges(s: nat, e: nat, reserved: seq<Range>) returns (inside: bool, overlap: bool)
      ensures (inside, overlap) == Scan(reserved, s, e)
    {
      inside, overlap := false, false;
      var j := 0;
      while j < |reserved|
        invariant 0 <= j <= |reserved| && !inside
        invariant Scan(reserved, s, e) == (Scan(reserved[j..], s, e).0, overlap || Scan(reserved[j..], s, e).1)
      {
        var r := reserved[j];
        assert reserved[j..][0] == r && reserved[j..][1..] == reserved[j + 1..];
        if s >= r.lo && e <= r.hi {
          inside := true;
          return;
        }
        if e > r.lo && s < r.hi {
          overlap := true;
        }
        j := j + 1;
      }
    }

    /** `push` */
    method Push(idx: nat, order: nat)
      requires Threaded() && idx < pageCount && order <= MAX_ORDER
      requires forall o :: 0 <= o <= MAX_ORDER ==> idx !in lists[o]
      modifies this`lists, meta, words, heads
      ensures Threaded() && lists == old(lists)[order := [idx] + old(lists)[order]]
      ensures meta[..] == old(meta[..])[idx := PageMeta(order, false)]
    {
      words[idx] := heads[order];
      heads[order] := idx;
      meta[idx] := PageMeta(order, false);
      ghost var l := lists[order];
      lists := lists[order := [idx] + l];
      forall o | 0 <= o <= MAX_ORDER ensures Threads(words[..], lists[o]) {
        assert Threads(old(words[..]), old(lists)[o]);
        if o == order {
          assert lists[o][1..] == l;
          assert forall k :: 0 < k < |lists[o]| ==> lists[o][k] == l[k - 1] && lists[o][k + 1..] == l[k..];
        }
      }
    }

    /** `pop` */
    method Pop(order: nat) returns (r: Option<nat>)
      requires Threaded() && order <= MAX_ORDER
      modifies this`lists, heads
      ensures Threaded()
      ensures r == if old(lists)[order] == [] then None else Some(old(lists)[order][0])
      ensures lists == if r.None? then old(lists) else old(lists)[order := old(lists)[order][1..]]
    {
      var head := heads[order];
      ghost var l := lists[order];
      assert Threads(words[..], l);
      if head == FREE_NONE {
        return None;
      }
      heads[order] := words[head];
      lists := lists[order := l[1..]];
      forall o | 0 <= o <= MAX_ORDER ensures Threads(words[..], lists[o]) {
        if o == order {
          assert forall k :: 0 <= k < |l[1..]| ==> l[1..][k] == l[k + 1] && l[1..][k + 1..] == l[k + 2..];
        }
      }
      return Some(head);
    }

    /** `unlink` */
    method Unlink(target: nat, order: nat)
      requires Threaded() && order <= MAX_ORDER && target in lists[order]
      requires forall o :: 0 <= o <= MAX_ORDER ==> NoDup(lists[o])
      requires forall o, p :: 0 <= o <= MAX_ORDER && o != order && p in lists[order] ==> p !in lists[o]
      modifies this`lists, words, heads
      ensures Threaded() && lists == old(lists)[order := Without(old(lists)[order], target)]
    {
      ghost var l := lists[order];
      assert Threads(words[..], l);
      var prev := FREE_NONE;
      var cur := heads[order];
      ghost var k := 0;
      while cur != target
        invariant 0 <= k < |l| && cur == l[k] && target in l[k..]
        invariant prev == if k == 0 then FREE_NONE else l[k - 1]
        invariant forall j :: 0 <= j < k ==> l[j] != target
        decreases |l| - k
      {
        prev := cur;
        cur := words[cur];
        assert l[k..][1..] == l[k + 1..];
        k := k + 1;
      }
      var next := words[cur];
      WithoutAt(l, target, k);
      if prev == FREE_NONE {
        heads[order] := next;
      } else {
        words[prev] := next;
      }
      lists := lists[order := l[..k] + l[k + 1..]];
      ThreadsWithout(old(words[..]), words[..], l, k);
      forall o | 0 <= o <= MAX_ORDER ensures Threads(words[..], lists[o]) {
        assert Threads(old(words[..]), old(lists)[o]);
      }
    }

    /** The search of `alloc`: the first block of the first list from `order` up that has one. */
    method Search(order: nat) returns (r: Option<nat>, o: nat)
      requires Threaded() && order <= MAX_ORDER
      modifies this`lists, heads
      ensures Threaded() && o == FirstFit(old(lists), order)
      ensures r == if o > MAX_ORDER then None else Some(old(lists)[o][0])
      ensures lists == if r.None? then old(lists) else old(lists)[o := old(lists)[o][1..]]
    {
      o := order;
      r := None;
      while o <= MAX_ORDER
        invariant order <= o <= MAX_ORDER + 1 && r == None && Threaded() && lists == old(lists)
        invariant FirstFit(lists, order) == FirstFit(lists, o)
      {
        r := Pop(o);
        if r.Some? {
          return;
        }
        o := o + 1;
      }
    }

    /** One round of the splitting loop of `alloc`. */
    method SplitHalf(idx: nat, cur: nat)
      requires Threaded() && InHand(St(), idx, cur + 1) && cur < MAX_ORDER
      modifies this`own, this`lists, meta, words, heads
      ensures Threaded() && idx + Pow2(cur) < meta.Length && St() == SplitOne(old(St()), idx, cur)
    {
      SplitInHand(St(), idx, cur);
      HalfNotListed(St(), idx, cur);
      Push(idx + Pow2(cur), cur);
      own := SplitTiles(own, idx, cur);
    }

    /** The first half of `alloc`: the block found is in hand. */
    method Take(order: nat) returns (found: Option<nat>, o: nat)
      requires Valid() && order <= MAX_ORDER
      modifies this`own, this`lists, heads
      ensures Threaded() && o == FirstFit(old(lists), order)
      ensures o > MAX_ORDER ==> found == None && St() == old(St())
      ensures o <= MAX_ORDER ==> found == Some(old(lists)[o][0]) && St() == BuddyModel.Pop(old(St()), o)
    {
      found, o := Search(order);
      if found.Some? {
        own := Retile(own, Tile(found.value, o, Live));
      }
    }

    /** `alloc` */
    method Allocate(order: nat) returns (r: Option<nat>)
      requires Valid()
      modifies this`own, this`lists, meta, words, heads
      ensures Valid() && St() == Alloc(old(St()), order).1
      ensures r == match Alloc(old(St()), order).0
                   case None => None
                   case Some(i) => Some(base + i * PAGE_SIZE)
    {
      ghost var s := St();
      if order > MAX_ORDER {
        return None;
      }
      var found, o := Take(order);
      if found.None? {
        return None;
      }
      var idx := found.value;
      assert InHand(St(), idx, o) by { PopInHand(s, o); }
      SplitTo(idx, o, order);
      assert St() == Alloc(s, order).1;
      assert Inv(St()) && |own| == realCount by { AllocCorrect(s, order); }
      return Some(base + idx * PAGE_SIZE);
    }

    /** The splitting loop of `alloc` and the marking of the head. */
    method SplitTo(idx: nat, o: nat, order: nat)
      requires Threaded() && order <= o <= MAX_ORDER && InHand(St(), idx, o)
      modifies this`own, this`lists, meta, words, heads
      ensures Threaded() && St() == SplitDown(old(St()), idx, o, order)
    {
      var cur := o;
      ghost var result := SplitDown(St(), idx, o, order);
      while cur > order
        invariant order <= cur && Splitting(idx, cur, order, result)
      {
        cur := cur - 1;
        SplitRound(idx, cur, order, result);
      }
      MarkUsed(idx, order, result);
    }

    method MarkUsed(idx: nat, order: nat, ghost result: State)
      requires Splitting(idx, order, order, result)
      modifies meta
      ensures Threaded() && St() == result
    {
      meta[idx] := PageMeta(order, true);
    }

    /** Inside the loop above; `result` is what it will end with. */
    ghost predicate Splitting(idx: nat, cur: nat, order: nat, result: State)
      reads this, meta, words, heads
    {
      var threaded, inHand := Threaded(), InHand(St(), idx, cur);
      && threaded && inHand && order <= cur <= MAX_ORDER
      && var ends := SplitDown(St(), idx, cur, order) == result; ends
    }

    method SplitRound(idx: nat, cur: nat, order: nat, ghost result: State)
      requires order <= cur && Splitting(idx, cur + 1, order, result)
      modifies this`own, this`lists, meta, words, heads
      ensures Splitting(idx, cur, order, result)
    {
      SplitInHand(St(), idx, cur);
      ghost var next := SplitOne(St(), idx, cur);
      assert SplitDown(next, idx, cur, order) == result;
      SplitHalf(idx, cur);
      assert St() == next;
    }

    /** The tests of `free` on an address. */
    ghost predicate Takes(addr: nat)
      requires meta.Length == pageCount && realCount <= pageCount
      reads this, meta
    {
      && base <= addr < base + realCount * PAGE_SIZE && addr % PAGE_SIZE == 0
      && var idx := (addr - base) / PAGE_SIZE;
         idx < realCount && meta[idx].order <= MAX_ORDER && meta[idx].used && Aligned(idx, meta[idx].order)
    }

    /** One round of the merging loop of `free`. */
    method MergeBuddy(idx: nat, order: nat, buddy: nat)
      requires Threaded() && InHand(St(), idx, order) && order < MAX_ORDER
      requires buddy == Buddy(idx, order) && IsHead(own, buddy, order, BuddyModel.Free)
      modifies this`own, this`lists, words, heads
      ensures Threaded() && St() == MergeOne(old(St()), idx, order)
    {
      ListsSeparate(St(), order);
      Unlink(buddy, order);
      own := Retile(own, Tile(Lower(idx, order), order + 1, Live));
    }

    /** The merging loop of `free` and the final push. */
    method MergeFrom(start: nat, startOrder: nat)
      requires Threaded() && startOrder <= MAX_ORDER && InHand(St(), start, startOrder) && PaddingUsed(St())
      modifies this`own, this`lists, meta, words, heads
      ensures Threaded() && St() == MergeUp(old(St()), start, startOrder)
    {
      var idx: nat, order: nat := start, startOrder;
      ghost var result := MergeUp(St(), start, startOrder);
      while order < MAX_ORDER
        invariant order <= MAX_ORDER && Threaded() && InHand(St(), idx, order) && PaddingUsed(St())
        invariant MergeUp(St(), idx, order) == result
        decreases MAX_ORDER - order
      {
        var buddy := Buddy(idx, order);
        CanMergeIff(St(), idx, order);
        if buddy + Pow2(order) > pageCount {
          break;
        }
        if meta[buddy].used || meta[buddy].order != order {
          break;
        }
        assert CanMerge(St(), idx, order);
        assert InHand(MergeOne(St(), idx, order), Lower(idx, order), order + 1) by { MergeInHand(St(), idx, order); }
        MergeBuddy(idx, order, buddy);
        idx := if idx < buddy then idx else buddy;
        order := order + 1;
      }
      assert !CanMerge(St(), idx, order);
      GiveBack(idx, order);
    }

    /** The final push of `free`. */
    method GiveBack(idx: nat, order: nat)
      requires Threaded() && order <= MAX_ORDER && InHand(St(), idx, order)
      modifies this`own, this`lists, meta, words, heads
      ensures Threaded() && St() == Return(old(St()), idx, order)
    {
      HandNotListed(St(), idx);
      Push(idx, order);
      own := Retile(own, Tile(idx, order, BuddyModel.Free));
    }

    /** `free`, for callers that hand back only what they were given. */
    method Free(addr: nat) returns (r: Result)
      requires Valid()
      requires Takes(addr) ==> var idx := (addr - base) / PAGE_SIZE; IsHead(own, idx, meta[idx].order, Live)
      modifies this`own, this`lists, meta, words, heads
      ensures Valid() && (r == Ok <==> old(Takes(addr)))
      ensures r == Err ==> St() == old(St())
      ensures r == Ok ==> St() == Release(old(St()), (addr - base) / PAGE_SIZE)
    {
      if addr < base || addr >= base + realCount * PAGE_SIZE || addr % PAGE_SIZE != 0 {
        return Err;
      }
      var idx := (addr - base) / PAGE_SIZE;
      var order := meta[idx].order;
      if order > MAX_ORDER || !meta[idx].used {
        return Err;
      }
      AlignedIffLowBits(idx, order);
      if !LowBitsZero(idx, order) {
        return Err;
      }
      ReleaseCorrect(St(), idx, order);
      MergeFrom(idx, order);
      return Ok;
    }

    /** `free_page_count` */
    method FreePageCount() returns (n: nat)
      requires Valid()
      ensures n == |BuddyTheorems.PagesOf(own, BuddyModel.Free)|
    {
      n := 0;
      ghost var total := BuddyTheorems.ListTotal(lists, 0);
      for order := 0 to MAX_ORDER + 1
        invariant n + BuddyTheorems.ListTotal(lists, order) == total
      {
        var cur := heads[order];
        ghost var l, k, before := lists[order], 0, n;
        assert Threads(words[..], l);
        while cur != FREE_NONE
          invariant 0 <= k <= |l| && cur == First(l[k..]) && n == before + k * Pow2(order)
          decreases |l| - k
        {
          n := n + Pow2(order);
          cur := words[cur];
          BuddyTheorems.MulStep(k, k + 1, Pow2(order));
          k := k + 1;
        }
        assert k == |l|;
      }
      BuddyTheorems.FreePageCountCorrect(St());
    }

    /** The owner of a live block writes the first word of one of its pages. */
    method OwnerWrites(p: nat, v: nat)
      requires Valid() && p < realCount && own[p].kind == Live
      modifies words
      ensures Valid() && St() == old(St()) && words[p] == v
    {
      HandNotListed(St(), p);
      words[p] := v;
      forall o | 0 <= o <= MAX_ORDER ensures Threads(words[..], lists[o]) {
        assert Threads(old(words[..]), lists[o]);
      }
    }
  }

  /** Pages not yet set up are on no list. */
  lemma FreshNotListed(s: State)
    requires ListsAgree(s.own, s.lists)
    ensures forall o :: 0 <= o <= MAX_ORDER ==> |s.own| !in s.lists[o]
  {
    forall o | 0 <= o <= MAX_ORDER ensures |s.own| !in s.lists[o] {
      assert ListAgrees(s.own, s.lists[o], o);
    }
  }

  lemma {:induction false} WithoutAt(l: seq<nat>, x: nat, k: nat)
    requires k < |l| && l[k] == x && forall j :: 0 <= j < k ==> l[j] != x
    ensures Without(l, x) == l[..k] + l[k + 1..]
    decreases k
  {
    if k > 0 {
      WithoutAt(l[1..], x, k - 1);
      assert [l[0]] + (l[1..][..k - 1] + l[1..][k..]) == l[..k] + l[k + 1..];
    }
  }

  lemma ThreadsWithout(w: seq<nat>, w': seq<nat>, l: seq<nat>, k: nat)
    requires Threads(w, l) && NoDup(l) && k < |l| && |w'| == |w|
    requires k == 0 ==> w' == w
    requires k > 0 ==> w' == w[l[k - 1] := w[l[k]]]
    ensures Threads(w', l[..k] + l[k + 1..])
  {
    var r := l[..k] + l[k + 1..];
    forall j | 0 <= j < |r| ensures r[j] < |w'| && w'[r[j]] == First(r[j + 1..]) {
      if j + 1 < k {
        assert r[j] == l[j] && r[j + 1] == l[j + 1];
      } else if j + 1 == k {
        assert r[j] == l[j];
        assert r[j + 1..] == l[k + 1..];
      } else {
        assert r[j] == l[j + 1];
        assert r[j + 1..] == l[j + 2..];
      }
    }
  }

  /** A live page is on no list. */
  lemma HandNotListed(s: State, i: nat)
    requires ListsAgree(s.own, s.lists) && i < |s.own| && s.own[i].kind == Live
    ensures forall o :: 0 <= o <= MAX_ORDER ==> i !in s.lists[o]
  {
    forall o | 0 <= o <= MAX_ORDER ensures i !in s.lists[o] {
      assert ListAgrees(s.own, s.lists[o], o);
    }
  }

  /** The half about to be split off is on no list. */
  lemma HalfNotListed(s: State, i: nat, c: nat)
    requires Tiled(s.own) && ListsAgree(s.own, s.lists) && IsHead(s.own, i, c + 1, Live)
    ensures forall o :: 0 <= o <= MAX_ORDER ==> i + Pow2(c) !in s.lists[o]
  {
    assert TileAt(s.own, i);
    assert Pow2(c + 1) == Pow2(c) + Pow2(c);
    HandNotListed(s, i + Pow2(c));
  }

  lemma ListsSeparate(s: State, order: nat)
    requires ListsAgree(s.own, s.lists) && order <= MAX_ORDER
    ensures forall o :: 0 <= o <= MAX_ORDER ==> NoDup(s.lists[o])
    ensures forall o, p :: 0 <= o <= MAX_ORDER && o != order && p in s.lists[order] ==> p !in s.lists[o]
    ensures forall p :: IsHead(s.own, p, order, BuddyModel.Free) ==> p in s.lists[order]
  {
    assert ListAgrees(s.own, s.lists[order], order);
    forall o | 0 <= o <= MAX_ORDER
      ensures NoDup(s.lists[o]) && (o != order ==> forall p :: p in s.lists[order] ==> p !in s.lists[o])
    {
      assert ListAgrees(s.own, s.lists[o], o);
    }
  }
}
