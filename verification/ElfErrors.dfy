/** With which error a load fails, said of the file, the arguments, the tables that exist and the size of the pool. */
module ElfErrors {
  import opened Common
  import opened ElfParse
  import opened MmuModel
  import opened MmuOps
  import opened ElfLoad
  import opened ElfMemory
  import opened ElfStack
  import opened ElfImage

  /** The pages `a` can be had and `b`, which has one more, cannot; `e` says why. */
  ghost predicate RefusesOne(t: Tables, a: seq<Page>, b: seq<Page>, e: Error)
    requires Inv(t)
  {
    && Affordable(t, a) && !Affordable(t, b) && e in {Overlap, NoMemory, MapFailed}
    && (e == Overlap <==> !Vacant(t, b)) && (e == NoMemory <==> Vacant(t, b) && Cost(t, a) == |t.pool|)
  }

  /**
    Of these pages the first `n` can be had and page `n` cannot, and `e` says why: something is mapped there, or no page
    is left, or only its tables cannot be made.
  */
  ghost predicate Refuses(t: Tables, pages: seq<Page>, n: nat, e: Error)
    requires Inv(t)
  {
    n < |pages| && RefusesOne(t, pages[..n], pages[..n + 1], e)
  }

  ghost predicate RefusedFor(t: Tables, pages: seq<Page>, e: Error)
    requires Inv(t)
  {
    exists n: nat :: Refuses(t, pages, n, e)
  }

  lemma FillRefuses(p: Progress, page: Page, lost: bool)
    requires Sound(p.space.tables, p.mapped) && p.error.None? && page.va < USER_VA_LIMIT && LeafFlags(page.flags)
    requires Fill(p, page, lost).error.Some?
    ensures RefusesOne(p.space.tables, [], [page], Fill(p, page, lost).error.value)
  {
    var t := p.space.tables;
    FillOne(p, page, lost);
    assert Ways([]) - t.role.Values == {};
    assert Places([page][1..]) == {} && Vacant(t, [page][1..]);
  }

  lemma RefusesNext(t: Tables, s: Tables, a: seq<Page>, b: seq<Page>, c: seq<Page>, ab: seq<Page>,
          ac: seq<Page>, e: Error)
    requires Inv(t) && Inv(s) && After(t, s, a) && Vacant(t, a) && RefusesOne(s, b, c, e) && ab == a + b && ac == a + c
    ensures RefusesOne(t, ab, ac, e)
  {
    AffordableNext(t, s, a, b, ab);
    AffordableNext(t, s, a, c, ac);
    VacantNext(t, s, a, c);
    CostNext(t, s, a, b);
  }

  lemma RefusedLater(t: Tables, s: Tables, a: seq<Page>, b: seq<Page>, ab: seq<Page>, e: Error)
    requires Inv(t) && Inv(s) && After(t, s, a) && Vacant(t, a) && RefusedFor(s, b, e) && ab == a + b
    ensures RefusedFor(t, ab, e)
  {
    var n: nat :| Refuses(s, b, n, e);
    Prefix(a, b, n);
    Prefix(a, b, n + 1);
    RefusesNext(t, s, a, b[..n], b[..n + 1], ab[..|a| + n], ab[..|a| + n + 1], e);
    assert Refuses(t, ab, |a| + n, e);
  }

  lemma RefusedFirst(t: Tables, page: Page, rest: seq<Page>, pages: seq<Page>, e: Error)
    requires Inv(t) && RefusesOne(t, [], [page], e) && pages == [page] + rest
    ensures RefusedFor(t, pages, e)
  {
    assert pages[..0] == [] && pages[..0 + 1] == [page];
    assert Refuses(t, pages, 0, e);
  }

  /** The error, if there is one, is that of the first page that cannot be had. */
  ghost predicate Excused(t: Tables, pages: seq<Page>, error: Option<Error>)
    requires Inv(t)
  {
    error.Some? ==> RefusedFor(t, pages, error.value)
  }

  lemma ExcusedNext(t: Tables, s: Tables, page: Page, rest: seq<Page>, error: Option<Error>)
    requires Inv(t) && Inv(s) && After(t, s, [page]) && Vacant(t, [page]) && Excused(s, rest, error)
    ensures Excused(t, [page] + rest, error)
  {
    if error.Some? { RefusedLater(t, s, [page], rest, [page] + rest, error.value); }
  }

  lemma ExcusedFirst(t: Tables, page: Page, rest: seq<Page>, error: Option<Error>)
    requires Inv(t) && error.Some? && RefusesOne(t, [], [page], error.value)
    ensures Excused(t, [page] + rest, error)
  {
    RefusedFirst(t, page, rest, [page] + rest, error.value);
  }

  lemma {:induction false} MapRefuses(p: Progress, pages: seq<Page>, lost: bool)
    requires Sound(p.space.tables, p.mapped) && p.error.None? && Mappable(pages)
    ensures Excused(p.space.tables, pages, MapPages(p, pages, lost).error)
    decreases |pages|
  {
    var t := p.space.tables;
    if pages != [] {
      var f, page, rest := Fill(p, pages[0], lost), pages[0], pages[1..];
      assert pages == [page] + rest;
      MapStep(p, f, page, rest, lost);
      if f.error.None? {
        FillOne(p, page, lost);
        MapRefuses(f, rest, lost);
        ExcusedNext(t, f.space.tables, page, rest, MapPages(f, rest, lost).error);
      } else {
        FillRefuses(p, page, lost);
        ExcusedFirst(t, page, rest, f.error);
      }
    }
  }

  /** Why a load of these segments is refused, in the order of the checks. */
  ghost predicate LoadRefused(t: Tables, segments: seq<Segment>, bytes: seq<Byte>, args: seq<seq<Byte>>, e: Error)
    requires Inv(t) && AllOk(segments, |bytes|)
  {
    var own, all := AllPages(segments, bytes), PagesUpTo(segments, bytes, USER_STACK_PAGES);
    if !Affordable(t, own) then RefusedFor(t, own, e)
    else if !FitsFirst(args) then e == BadSegment
    else if !Affordable(t, all) then RefusedFor(t, all, e)
    else e == BadSegment && Plan(args).None?
  }

  /** The segments can be had: then the stack decides. */
  lemma OwnMapped(sp: Space, segments: seq<Segment>, bytes: seq<Byte>) returns (p: Progress)
    requires Inv(sp.tables) && AllOk(segments, |bytes|)
    ensures p == MapAll(sp, segments, bytes)
    ensures p.error.None? <==> Affordable(sp.tables, AllPages(segments, bytes))
    ensures p.error.None? ==> After(sp.tables, p.space.tables, AllPages(segments, bytes))
    ensures Excused(sp.tables, AllPages(segments, bytes), p.error)
  {
    var a := AllPages(segments, bytes);
    p := MapAll(sp, segments, bytes);
    AllMappable(segments, bytes);
    PagesOutcome(Start(sp), a, false);
    MapRefuses(Start(sp), a, false);
  }

  lemma StackMappedOr(p: Progress)
    requires Sound(p.space.tables, p.mapped) && p.error.None?
    ensures var e := MapStack(p).error;
            (e.None? <==> Affordable(p.space.tables, StackArea())) && Excused(p.space.tables, StackArea(), e)
  {
    StackMappable();
    PagesOutcome(p, StackArea(), true);
    MapRefuses(p, StackArea(), true);
  }

  /** The stack, said of the tables before the segments were mapped. */
  lemma StackAfter(t: Tables, s: Tables, a: seq<Page>, all: seq<Page>, error: Option<Error>)
    requires Inv(t) && Inv(s) && After(t, s, a) && Vacant(t, a) && all == a + StackArea()
    requires error.None? <==> Affordable(s, StackArea())
    requires Excused(s, StackArea(), error)
    ensures (error.None? <==> Affordable(t, all)) && Excused(t, all, error)
  {
    AffordableNext(t, s, a, StackArea(), all);
    if error.Some? { RefusedLater(t, s, a, StackArea(), all, error.value); }
  }

  /** The error of `build_user_stack`. */
  lemma StackError(p: Progress, args: seq<seq<Byte>>)
    requires Sound(p.space.tables, p.mapped) && p.error.None?
    ensures WithStack(p, args).error ==
            if !FitsFirst(args) then Some(BadSegment)
            else if MapStack(p).error.Some? then MapStack(p).error
            else if Plan(args).Some? then None else Some(BadSegment)
  {
    if MapStack(p).error.None? { StackMapped(p); }
  }

  /** The first of the checks that fails decides. */
  lemma FirstDecides(t: Tables, segments: seq<Segment>, bytes: seq<Byte>, args: seq<seq<Byte>>, own: Option<Error>,
          stack: Option<Error>, e: Error)
    requires Inv(t) && AllOk(segments, |bytes|)
    requires (own.None? <==> Affordable(t, AllPages(segments, bytes))) && Excused(t, AllPages(segments, bytes), own)
    requires own.None? ==>
               var all := PagesUpTo(segments, bytes, USER_STACK_PAGES);
               (stack.None? <==> Affordable(t, all)) && Excused(t, all, stack)
    requires if own.Some? then e == own.value
             else if !FitsFirst(args) then e == BadSegment
             else if stack.Some? then e == stack.value
             else e == BadSegment && Plan(args).None?
    ensures LoadRefused(t, segments, bytes, args, e)
  {
  }

  lemma PreparedRefuses(sp: Space, segments: seq<Segment>, bytes: seq<Byte>, args: seq<seq<Byte>>, e: Error)
    requires Inv(sp.tables) && AllOk(segments, |bytes|) && Prepared(sp, segments, bytes, args).error == Some(e)
    ensures LoadRefused(sp.tables, segments, bytes, args, e)
  {
    var p := OwnMapped(sp, segments, bytes);
    var stack := None;
    if p.error.None? {
      stack := MapStack(p).error;
      StackMappedOr(p);
      StackError(p, args);
      AllStack(segments, bytes);
      StackAfter(sp.tables, p.space.tables, AllPages(segments, bytes),
        PagesUpTo(segments, bytes, USER_STACK_PAGES), stack);
    }
    FirstDecides(sp.tables, segments, bytes, args, p.error, stack, e);
  }

  lemma AllStack(segments: seq<Segment>, bytes: seq<Byte>)
    requires AllOk(segments, |bytes|)
    ensures PagesUpTo(segments, bytes, USER_STACK_PAGES) == AllPages(segments, bytes) + StackArea()
  {
    assert StackArea()[..USER_STACK_PAGES] == StackArea();
  }

  /**
    The error of a failed load: that of the file; else that there is no such process; else that of the first page of a
    segment that cannot be had; else that the arguments are too many or too long; else that of the first stack page that
    cannot be had; else that the arguments leave no room for their vector.
  */
  lemma LoadFailsWith(sp: Space, alive: bool, bytes: seq<Byte>, args: seq<seq<Byte>>, e: Error)
    requires Inv(sp.tables) && Load(sp, alive, bytes, args).1 == Err(e)
    ensures Parse(bytes).Err? ==> Parse(bytes).error == e
    ensures Parse(bytes).Ok? && !alive ==> e == BadProcess
    ensures Parse(bytes).Ok? && alive ==>
              && AllOk(Parse(bytes).value.segments, |bytes|)
              && LoadRefused(sp.tables, Parse(bytes).value.segments, bytes, args, e)
  {
    if Parse(bytes).Ok? && alive {
      ParseGood(bytes);
      PreparedRuns(sp, Parse(bytes).value.segments, bytes, args);
      var p := Prepared(sp, Parse(bytes).value.segments, bytes, args);
      if p.error.Some? { PreparedRefuses(sp, Parse(bytes).value.segments, bytes, args, p.error.value); }
    }
  }
}
