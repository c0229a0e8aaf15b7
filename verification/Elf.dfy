/** The loader as it runs, on an address space that is updated in place. */
module ElfObject {
  import opened Common
  import opened ElfParse
  import opened MmuModel
  import opened MmuOps
  import opened MmuGrowth
  import opened MmuObject
  import opened ElfLoad
  import opened ElfStack
  import opened ElfImage

  class Loader {
    const mmu: AddressSpace
    var mem: map<Ppn, seq<Byte>>
    var mapped: seq<Mapped>

    constructor (space: AddressSpace)
      ensures mmu == space && mem == map[] && mapped == []
    {
      mmu, mem, mapped := space, map[], [];
    }

    ghost function St(error: Option<Error>): (p: Progress)
      reads this, mmu
    {
      Progress(Space(mmu.St(), mem), mapped, error)
    }

    ghost predicate Ready()
      reads this, mmu
    {
      Sound(mmu.St(), mapped)
    }

    /** Allocating, filling and mapping one page. */
    method FillPage(page: Page, lost: bool) returns (error: Option<Error>)
      requires Ready() && page.va < USER_VA_LIMIT && LeafFlags(page.flags)
      modifies this, mmu
      ensures Ready() && St(error) == Fill(old(St(None)), page, lost)
    {
      FillSound(St(None), page, lost);
      var leaf := mmu.LeafEntry(Index(page.va));
      if Valid(leaf) {
        return Some(Overlap);
      }
      if mmu.pool == [] {
        return Some(NoMemory);
      }
      TakingOk(mmu.St());
      var pa := mmu.pool[0];
      mmu.pool := mmu.pool[1..];
      mem := mem[pa := page.content];
      var ok := mmu.MapUserPage(page.va, PageAddress(pa), page.flags, true);
      if !ok {
        if !lost {
          mmu.pool := [pa] + mmu.pool;
        }
        return Some(MapFailed);
      }
      mapped := mapped + [Mapped(Index(page.va), pa)];
      return None;
    }

    /** The pages `rest` are still to be mapped, unless something failed; that ends in `result`. */
    ghost predicate Left(error: Option<Error>, rest: seq<Page>, lost: bool, result: Progress)
      reads this, mmu
    {
      var ready, mappable := Ready(), Mappable(rest);
      ready && mappable && var ends := MapPages(St(error), rest, lost) == result; ends
    }

    lemma NothingLeft(error: Option<Error>, rest: seq<Page>, lost: bool, result: Progress)
      requires Left(error, rest, lost, result) && (rest == [] || error.Some?)
      ensures Ready() && St(error) == result
    {
    }

    /** One round of the page loops. */
    method NextPage(page: Page, lost: bool, ghost pages: seq<Page>, ghost rest: seq<Page>, ghost result: Progress)
      returns (error: Option<Error>)
      requires Left(None, pages, lost, result) && pages == [page] + rest
      modifies this, mmu
      ensures Left(error, rest, lost, result)
    {
      MapStep(St(None), Fill(St(None), page, lost), page, rest, lost);
      error := FillPage(page, lost);
    }

    /** `map_segment` */
    method MapOne(s: Segment, bytes: seq<Byte>) returns (error: Option<Error>)
      requires Ready() && SegmentOk(s, |bytes|)
      modifies this, mmu
      ensures Mappable(SegmentPages(s, bytes))
      ensures Ready() && St(error) == MapPages(old(St(None)), SegmentPages(s, bytes), false)
    {
      ghost var pages, i := SegmentPages(s, bytes), 0;
      SegmentMappable(s, bytes);
      ghost var result := MapPages(St(None), pages, false);
      var va := PageStart(s);
      error := None;
      assert pages[0..] == pages;
      while va < PageEnd(s) && error.None?
        invariant 0 <= i <= |pages| && va == PageStart(s) + 4096 * i && Left(error, pages[i..], false, result)
        decreases PageEnd(s) + PAGE_SIZE - va
      {
        PageHere(s, bytes, pages, i, va);
        var page := Page(va, PageBytes(s, bytes, va), SegmentFlags(s.flags));
        error := NextPage(page, false, pages[i..], pages[i + 1..], result);
        va, i := va + PAGE_SIZE, i + 1;
      }
      PageHere(s, bytes, pages, i, va);
      NothingLeft(error, pages[i..], false, result);
    }

    /** The loop of `load` over the segments. */
    method MapSegments(segments: seq<Segment>, bytes: seq<Byte>) returns (error: Option<Error>)
      requires Ready() && AllOk(segments, |bytes|)
      modifies this, mmu
      ensures Mappable(AllPages(segments, bytes))
      ensures Ready() && St(error) == MapPages(old(St(None)), AllPages(segments, bytes), false)
    {
      AllMappable(segments, bytes);
      error := None;
      var i := 0;
      assert segments[0..] == segments;
      while i < |segments| && error.None?
        invariant 0 <= i <= |segments| && Mappable(AllPages(segments[i..], bytes)) && Ready()
        invariant MapPages(St(error), AllPages(segments[i..], bytes), false)
                  == MapPages(old(St(None)), AllPages(segments, bytes), false)
      {
        ghost var p, rest := St(None), segments[i + 1..];
        assert segments[i..][0] == segments[i] && segments[i..][1..] == rest;
        SegmentMappable(segments[i], bytes);
        AllMappable(rest, bytes);
        MapJoin(p, SegmentPages(segments[i], bytes), AllPages(rest, bytes), false);
        error := MapOne(segments[i], bytes);
        i := i + 1;
      }
    }

    /** The page loop of `build_user_stack`. */
    method MapStackPages() returns (error: Option<Error>)
      requires Ready()
      modifies this, mmu
      ensures Ready() && St(error) == MapStack(old(St(None)))
    {
      error := None;
      ghost var pages := StackArea();
      StackMappable();
      ghost var result := MapStack(St(None));
      var i := 0;
      assert pages[0..] == pages;
      while i < USER_STACK_PAGES && error.None?
        invariant 0 <= i <= USER_STACK_PAGES && Left(error, pages[i..], true, result)
      {
        var page := Page(StackPage(i), Zeros(PAGE_SIZE), LEAF_RW);
        StackNext(pages, i);
        error := NextPage(page, true, pages[i..], pages[i + 1..], result);
        i := i + 1;
      }
      NothingLeft(error, pages[i..], true, result);
    }

    /** The pages `rest` are still to be taken back; that ends in `result`. */
    ghost predicate Undoing(rest: seq<Mapped>, result: Space)
      reads this, mmu
    {
      var sound := Sound(mmu.St(), rest);
      sound && var ends := Rollback(Space(mmu.St(), mem), rest) == result; ends
    }

    lemma NothingToUndo(result: Space)
      requires Undoing([], result)
      ensures Space(mmu.St(), mem) == result
    {
    }

    /** One round of `rollback`. */
    method UndoNext(m: Mapped, ghost l: seq<Mapped>, ghost rest: seq<Mapped>, ghost result: Space)
      requires Undoing(l, result) && l == [m] + rest
      modifies mmu
      ensures Undoing(rest, result)
    {
      RollbackStep(Space(mmu.St(), mem), m, l, rest);
      var _ := mmu.Unmap4k(m.v);
      mmu.pool := [m.pa] + mmu.pool;
      assert mmu.St() == UndoOne(old(mmu.St()), m);
    }

    /** `rollback` */
    method Undo()
      requires Ready()
      modifies mmu
      ensures Space(mmu.St(), mem) == Rollback(Space(old(mmu.St()), mem), mapped)
    {
      ghost var result := Rollback(Space(mmu.St(), mem), mapped);
      var i := 0;
      assert mapped[0..] == mapped;
      while i < |mapped|
        invariant 0 <= i <= |mapped| && Undoing(mapped[i..], result)
      {
        assert mapped[i..] == [mapped[i]] + mapped[i + 1..];
        UndoNext(mapped[i], mapped[i..], mapped[i + 1..], result);
        i := i + 1;
      }
      assert mapped[i..] == [];
      NothingToUndo(result);
    }

    /** The argument area is written into the stack pages, the last eight that were mapped. */
    method WriteStack(args: seq<seq<Byte>>) returns (error: Option<Error>)
      requires |mapped| >= USER_STACK_PAGES && FitsFirst(args)
      modifies this`mem
      ensures St(error) == WithArgs(old(St(None)), args)
    {
      var m, plan := BuildUserStack(StackPages(), args);
      ghost var all := LastPages(mapped, USER_STACK_PAGES);
      var n, i := |mapped| - USER_STACK_PAGES, 0;
      assert all[0..] == all && m[0..] == m;
      while i < USER_STACK_PAGES
        invariant 0 <= i <= USER_STACK_PAGES && Install(mem, all[i..], m[i..]) == Install(old(mem), all, m)
      {
        assert all[i..][0] == mapped[n + i].pa && all[i..][1..] == all[i + 1..] && m[i..][0] == m[i];
        assert m[i..][1..] == m[i + 1..];
        mem := mem[mapped[n + i].pa := m[i]];
        i := i + 1;
      }
      return if plan.Some? then None else Some(BadSegment);
    }

    /** `build_user_stack` */
    method BuildStack(args: seq<seq<Byte>>) returns (error: Option<Error>)
      requires Ready()
      modifies this, mmu
      ensures Ready() && St(error) == WithStack(old(St(None)), args)
    {
      if !FitsFirst(args) {
        return Some(BadSegment);
      }
      ghost var p := St(None);
      error := MapStackPages();
      if error.None? {
        StackMapped(p);
        error := WriteStack(args);
      }
    }

    /** `load`, up to the first error. */
    method Prepare(segments: seq<Segment>, bytes: seq<Byte>, args: seq<seq<Byte>>) returns (error: Option<Error>)
      requires MmuModel.Inv(mmu.St()) && mapped == [] && AllOk(segments, |bytes|)
      modifies this, mmu
      ensures Ready() && St(error) == Prepared(Space(old(mmu.St()), old(mem)), segments, bytes, args)
    {
      error := MapSegments(segments, bytes);
      if error.None? {
        error := BuildStack(args);
      }
    }

    /** `load` */
    method LoadFile(alive: bool, bytes: seq<Byte>, args: seq<seq<Byte>>) returns (r: Result<Loaded>)
      requires MmuModel.Inv(mmu.St()) && mapped == []
      modifies this, mmu
      ensures (Space(mmu.St(), mem), r) == Load(Space(old(mmu.St()), old(mem)), alive, bytes, args)
    {
      var info := ParseFile(bytes);
      if info.Err? {
        return Err(info.error);
      }
      if !alive {
        return Err(BadProcess);
      }
      ParseGood(bytes);
      PreparedRuns(Space(mmu.St(), mem), info.value.segments, bytes, args);
      var error := Prepare(info.value.segments, bytes, args);
      if error.Some? {
        Undo();
        return Err(error.value);
      }
      var plan := Plan(args).value;
      return Ok(Loaded(info.value.entry, plan.sp, |args|, plan.argv));
    }
  }
}
