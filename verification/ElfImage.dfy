/**
  `load` as a whole: parse, map the segments, check the arguments, map the stack, write it; or take everything
  back.
*/
module ElfImage {
  import opened Common
  import opened ElfParse
  import opened MmuModel
  import opened MmuOps
  import opened MmuGrowth
  import opened ElfLoad
  import opened ElfMemory
  import opened ElfStack

  datatype Loaded = Loaded(entry: nat, sp: nat, argc: nat, argv: nat)

  /** The physical pages of the last `k` mappings. */
  function LastPages(mapped: seq<Mapped>, k: nat): (r: seq<Ppn>)
    requires k <= |mapped|
    ensures |r| == k && forall i :: 0 <= i < k ==> r[i] == mapped[|mapped| - k + i].pa
  {
    if k == 0 then [] else LastPages(mapped[..|mapped| - 1], k - 1) + [mapped[|mapped| - 1].pa]
  }

  /** Pages `pas` hold the contents `m`. */
  function Install(mem: map<Ppn, seq<Byte>>, pas: seq<Ppn>, m: seq<seq<Byte>>): (r: map<Ppn, seq<Byte>>)
    requires |pas| == |m|
    decreases |pas|
  {
    if pas == [] then mem else Install(mem[pas[0] := m[0]], pas[1..], m[1..])
  }

  /** The argument area is written into the stack pages, which were mapped last. */
  function WithArgs(p: Progress, args: seq<seq<Byte>>): (r: Progress)
    requires FitsFirst(args)
  {
    if |p.mapped| < USER_STACK_PAGES then p
    else
      var mem := Install(p.space.mem, LastPages(p.mapped, USER_STACK_PAGES), ArgStack(StackPages(), args));
      p.(space := p.space.(mem := mem), error := if Plan(args).Some? then None else Some(BadSegment))
  }

  /** The page loop of `build_user_stack`: a page whose mapping fails is not given back. */
  function MapStack(p: Progress): (r: Progress)
    requires Sound(p.space.tables, p.mapped)
    ensures Sound(r.space.tables, r.mapped) && p.mapped <= r.mapped
  {
    StackMappable();
    MapPages(p, StackArea(), true)
  }

  /** `build_user_stack` */
  function WithStack(p: Progress, args: seq<seq<Byte>>): (r: Progress)
    requires Sound(p.space.tables, p.mapped)
    ensures Sound(r.space.tables, r.mapped)
  {
    if !FitsFirst(args) then p.(error := Some(BadSegment))
    else
      var q := MapStack(p);
      if q.error.Some? then q else WithArgs(q, args)
  }

  function Start(sp: Space): (p: Progress) {
    Progress(sp, [], None)
  }

  /** The loop of `load` over the segments: a page whose mapping fails is given back. */
  function MapAll(sp: Space, segments: seq<Segment>, bytes: seq<Byte>): (r: Progress)
    requires Inv(sp.tables) && AllOk(segments, |bytes|)
    ensures Sound(r.space.tables, r.mapped)
  {
    AllMappable(segments, bytes);
    MapPages(Start(sp), AllPages(segments, bytes), false)
  }

  /** Everything up to the first error. */
  function Prepared(sp: Space, segments: seq<Segment>, bytes: seq<Byte>, args: seq<seq<Byte>>): (r: Progress)
    requires Inv(sp.tables) && AllOk(segments, |bytes|)
    ensures Sound(r.space.tables, r.mapped)
  {
    var p := MapAll(sp, segments, bytes);
    if p.error.Some? then p else WithStack(p, args)
  }

  /** `load`; `alive` says whether the process exists. */
  function Load(sp: Space, alive: bool, bytes: seq<Byte>, args: seq<seq<Byte>>): (r: (Space, Result<Loaded>))
    requires Inv(sp.tables)
    ensures Inv(r.0.tables)
  {
    var info := Parse(bytes);
    if info.Err? then (sp, Err(info.error))
    else if !alive then (sp, Err(BadProcess))
    else
      ParseGood(bytes);
      var p := Prepared(sp, info.value.segments, bytes, args);
      if p.error.Some? then (Rollback(p.space, p.mapped), Err(p.error.value))
      else if Plan(args).None? then (p.space, Err(BadSegment))
      else (p.space, Ok(Loaded(info.value.entry, Plan(args).value.sp, |args|, Plan(args).value.argv)))
  }

  // ----- Failure -----

  lemma StackMapped(p: Progress)
    requires Sound(p.space.tables, p.mapped) && p.error.None? && MapStack(p).error.None?
    ensures HoldFrom(MapStack(p), |p.mapped|, StackArea())
  {
    StackMappable();
    MapPagesFills(p, StackArea(), true, MapStack(p));
  }

  lemma PreparedRuns(sp: Space, segments: seq<Segment>, bytes: seq<Byte>, args: seq<seq<Byte>>)
    requires Inv(sp.tables) && AllOk(segments, |bytes|)
    ensures var r := Prepared(sp, segments, bytes, args);
            && Running(sp.tables, r.space.tables, r.mapped)
            && (r.error.None? ==> FitsFirst(args) && Plan(args).Some?)
  {
    var p := MapAll(sp, segments, bytes);
    AllMappable(segments, bytes);
    MapPagesRuns(sp.tables, Start(sp), AllPages(segments, bytes), false);
    if p.error.None? && FitsFirst(args) {
      StackMappable();
      MapPagesRuns(sp.tables, p, StackArea(), true);
      if MapStack(p).error.None? { StackMapped(p); }
    }
  }

  /** A load that fails, wherever it does, leaves the translation of every page as it was. */
  lemma FailedLoadRestores(sp: Space, alive: bool, bytes: seq<Byte>, args: seq<seq<Byte>>)
    requires Inv(sp.tables) && Load(sp, alive, bytes, args).1.Err?
    ensures SameMeaning(sp.tables, Load(sp, alive, bytes, args).0.tables)
  {
    if Parse(bytes).Ok? && alive {
      ParseGood(bytes);
      var p := Prepared(sp, Parse(bytes).value.segments, bytes, args);
      PreparedRuns(sp, Parse(bytes).value.segments, bytes, args);
      RolledBack(sp.tables, p.space, p.mapped);
    }
  }

  /** The pages of the segments, then the first `k` of the stack. */
  function PagesUpTo(segments: seq<Segment>, bytes: seq<Byte>, k: nat): (r: seq<Page>)
    requires AllOk(segments, |bytes|) && k <= USER_STACK_PAGES
  {
    AllPages(segments, bytes) + StackArea()[..k]
  }

  /**
    What makes a load lose a page, said of its arguments, the tables that exist and the size of the pool: up to and
    including stack page `k` all pages are vacant, the pool is enough for the pages before it with their tables and
    one page more, and not enough for its tables.
  */
  ghost predicate LosesPage(t: Tables, alive: bool, bytes: seq<Byte>, args: seq<seq<Byte>>)
    requires Inv(t)
  {
    && Parse(bytes).Ok? && alive && FitsFirst(args)
    && AllOk(Parse(bytes).value.segments, |bytes|)
    && exists k: nat :: k < USER_STACK_PAGES && LosesAt(t, Parse(bytes).value.segments, bytes, k)
  }

  ghost predicate LosesAt(t: Tables, segments: seq<Segment>, bytes: seq<Byte>, k: nat)
    requires Inv(t) && AllOk(segments, |bytes|) && k < USER_STACK_PAGES
  {
    FailsBetween(t, PagesUpTo(segments, bytes, k), PagesUpTo(segments, bytes, k + 1))
  }

  /** Where the loss shows, the segments have been mapped. */
  lemma SegmentsFirst(t: Tables, segments: seq<Segment>, bytes: seq<Byte>, k: nat)
    requires Inv(t) && AllOk(segments, |bytes|) && k < USER_STACK_PAGES && LosesAt(t, segments, bytes, k)
    ensures Vacant(t, AllPages(segments, bytes)) && Cost(t, AllPages(segments, bytes)) <= |t.pool|
  {
    VacantJoined(t, AllPages(segments, bytes), StackArea()[..k + 1]);
    CostGrows(t, AllPages(segments, bytes), StackArea()[..k]);
  }

  /** After the segments, the mapping of a stack page fails exactly where the loss was foreseen. */
  lemma LossIff(t: Tables, r: Tables, segments: seq<Segment>, bytes: seq<Byte>)
    requires Inv(t) && Inv(r) && AllOk(segments, |bytes|) && Vacant(t, AllPages(segments, bytes))
    requires After(t, r, AllPages(segments, bytes))
    ensures SomeFails(r, StackArea()) <==> exists k: nat :: k < USER_STACK_PAGES && LosesAt(t, segments, bytes, k)
  {
    var a := AllPages(segments, bytes);
    forall k: nat | k < USER_STACK_PAGES ensures FailsAt(r, StackArea(), k) <==> LosesAt(t, segments, bytes, k) {
      FailsNext(t, r, a, StackArea()[..k], StackArea()[..k + 1], PagesUpTo(segments, bytes, k),
                PagesUpTo(segments, bytes, k + 1));
    }
    if SomeFails(r, StackArea()) {
      var k: nat :| FailsAt(r, StackArea(), k);
      assert LosesAt(t, segments, bytes, k);
    }
    if k: nat :| k < USER_STACK_PAGES && LosesAt(t, segments, bytes, k) {
      assert FailsAt(r, StackArea(), k);
    }
  }

  lemma PreparedStock(sp: Space, segments: seq<Segment>, bytes: seq<Byte>, args: seq<seq<Byte>>)
    requires Inv(sp.tables) && AllOk(segments, |bytes|)
    ensures var r := Prepared(sp, segments, bytes, args);
            var lost := FitsFirst(args)
                        && exists k: nat :: k < USER_STACK_PAGES && LosesAt(sp.tables, segments, bytes, k);
            && Stock(r) == Stock(Start(sp)) - (if lost then 1 else 0)
            && (lost ==> r.error == Some(MapFailed))
  {
    var p, t := MapAll(sp, segments, bytes), sp.tables;
    AllMappable(segments, bytes);
    MapPagesStock(Start(sp), AllPages(segments, bytes), false);
    PagesOutcome(Start(sp), AllPages(segments, bytes), false);
    if p.error.Some? {
      if k: nat :| k < USER_STACK_PAGES && LosesAt(t, segments, bytes, k) { SegmentsFirst(t, segments, bytes, k); }
    } else if FitsFirst(args) {
      StackMappable();
      MapPagesStock(p, StackArea(), true);
      PagesOutcome(p, StackArea(), true);
      LossIff(t, p.space.tables, segments, bytes);
    }
  }

  /**
    A failed load returns its data pages and keeps the tables it made: pool and tables together are as before. Only
    when the tables of a stack page cannot be made, one page more is gone.
  */
  lemma FailedLoadPages(sp: Space, alive: bool, bytes: seq<Byte>, args: seq<seq<Byte>>)
    requires Inv(sp.tables)
    ensures LosesPage(sp.tables, alive, bytes, args) ==> Load(sp, alive, bytes, args).1 == Err(MapFailed)
    ensures var (r, e) := Load(sp, alive, bytes, args);
            e.Err? ==> |r.tables.pool| == |sp.tables.pool| - (|r.tables.mem| - |sp.tables.mem|)
                                          - if LosesPage(sp.tables, alive, bytes, args) then 1 else 0
  {
    if Parse(bytes).Ok? && alive {
      ParseGood(bytes);
      var segments := Parse(bytes).value.segments;
      var p := Prepared(sp, segments, bytes, args);
      PreparedStock(sp, segments, bytes, args);
      PreparedRuns(sp, segments, bytes, args);
      RollbackUndoes(p.space, p.mapped, Va(0, 0, 0));
    }
  }

  /** `load` succeeds exactly when the arguments fit, all pages are vacant, and the pool has them and their tables. */
  lemma LoadsIff(sp: Space, alive: bool, bytes: seq<Byte>, args: seq<seq<Byte>>)
    requires Inv(sp.tables)
    ensures Parse(bytes).Ok? ==> AllOk(Parse(bytes).value.segments, |bytes|)
    ensures Load(sp, alive, bytes, args).1.Ok? <==>
            && Parse(bytes).Ok? && alive && Plan(args).Some?
            && var pages := PagesUpTo(Parse(bytes).value.segments, bytes, USER_STACK_PAGES);
               Vacant(sp.tables, pages) && Cost(sp.tables, pages) <= |sp.tables.pool|
  {
    if Parse(bytes).Ok? {
      ParseGood(bytes);
      var segments := Parse(bytes).value.segments;
      PreparedRuns(sp, segments, bytes, args);
      if alive && FitsFirst(args) { MapsIff(sp, segments, bytes, args); }
    }
  }

  lemma MapsIff(sp: Space, segments: seq<Segment>, bytes: seq<Byte>, args: seq<seq<Byte>>)
    requires Inv(sp.tables) && AllOk(segments, |bytes|) && FitsFirst(args)
    ensures var pages := PagesUpTo(segments, bytes, USER_STACK_PAGES);
            Prepared(sp, segments, bytes, args).error.None? <==>
            Vacant(sp.tables, pages) && Cost(sp.tables, pages) <= |sp.tables.pool| && Plan(args).Some?
  {
    var a, p := AllPages(segments, bytes), MapAll(sp, segments, bytes);
    AllMappable(segments, bytes);
    PagesOutcome(Start(sp), a, false);
    assert StackArea()[..USER_STACK_PAGES] == StackArea();
    if p.error.None? {
      StackMappable();
      PagesOutcome(p, StackArea(), true);
      VacantNext(sp.tables, p.space.tables, a, StackArea());
      CostNext(sp.tables, p.space.tables, a, StackArea());
      if MapStack(p).error.None? { StackMapped(p); }
    } else {
      VacantJoined(sp.tables, a, StackArea());
      CostGrows(sp.tables, a, StackArea());
    }
  }

  // ----- Two small pools -----

  /** An address space with a root table only, which is empty. */
  ghost predicate Bare(t: Tables) {
    Inv(t) && t.role == map[t.root := Root] && t.mem == map[t.root := Zeroed()]
  }

  lemma BareStack(t: Tables)
    requires Bare(t)
    ensures Vacant(t, StackArea()[..1]) && Cost(t, []) == 0 && Cost(t, StackArea()[..1]) == 3
  {
    var page, v := StackArea()[0], Index(StackPage(0));
    assert StackArea()[..1] == [page];
    OnePage(t, page, v);
    assert Ways([]) - t.role.Values == {};
    BothNew(t.role.Values, v);
  }

  /** One free page, no segments and no tables: afterwards the page is neither in the pool nor a table. */
  lemma StackPageLost(sp: Space, bytes: seq<Byte>, none: seq<Segment>)
    requires Bare(sp.tables) && |sp.tables.pool| == 1 && Parse(bytes).Ok? && Parse(bytes).value.segments == none == []
    ensures var (r, e) := Load(sp, true, bytes, []);
            e == Err(MapFailed) && |r.tables.pool| == 0 && |r.tables.mem| == |sp.tables.mem| == 1
  {
    LosesFirst(sp.tables, bytes, none);
    FailedLoadPages(sp, true, bytes, []);
    var r := Load(sp, true, bytes, []).0.tables;
    assert r.root in r.mem;
  }

  lemma LosesFirst(t: Tables, bytes: seq<Byte>, none: seq<Segment>)
    requires Bare(t) && |t.pool| == 1 && Parse(bytes).Ok? && Parse(bytes).value.segments == none == []
    ensures LosesPage(t, true, bytes, []) && |t.mem| == 1
  {
    BareStack(t);
    StackOnly(none, bytes, 0);
    StackOnly(none, bytes, 1);
    assert StackArea()[..0] == [];
    assert LosesAt(t, none, bytes, 0);
    assert FitsFirst([]);
  }

  lemma StackOnly(none: seq<Segment>, bytes: seq<Byte>, k: nat)
    requires none == [] && k <= USER_STACK_PAGES
    ensures PagesUpTo(none, bytes, k) == StackArea()[..k]
  {
  }

  /** If the first page takes all of the pool, mapping stops after it, and not for want of a table. */
  lemma OnePageOnly(t: Tables, pages: seq<Page>, n: nat)
    requires Inv(t) && |pages| > 1 && Vacant(t, pages[..1]) && Cost(t, []) < Cost(t, pages[..1]) == |t.pool|
    ensures Stops(t, pages, n) ==> n == 1
    ensures !FailsAt(t, pages, n)
  {
    assert pages[..0] == [];
    if 1 < n <= |pages| {
      assert pages[..n] == pages[..1] + pages[1..n];
      CostMore(t, pages[..1], pages[1..n]);
    }
  }

  lemma CostMore(t: Tables, a: seq<Page>, b: seq<Page>)
    requires b != []
    ensures Cost(t, a) < Cost(t, a + b)
  {
    Joined(a, b);
    NewCount(t.role.Values, Ways(a), Ways(b));
  }

  /** The first page takes all of the pool. */
  ghost predicate TakesAll(t: Tables, pages: seq<Page>)
    requires Inv(t)
  {
    |pages| > 1 && Vacant(t, pages[..1]) && Cost(t, []) < Cost(t, pages[..1]) == |t.pool|
  }

  lemma {:induction false} OneMapped(sp: Space, pages: seq<Page>, p: Progress)
    requires Inv(sp.tables) && Mappable(pages) && p == MapPages(Start(sp), pages, true) && TakesAll(sp.tables, pages)
    ensures |p.mapped| == 1 && p.error.Some? && |p.space.tables.pool| == 0
    ensures |p.space.tables.mem| == |sp.tables.mem| + |sp.tables.pool| - 1
  {
    var t := sp.tables;
    MapPagesStock(Start(sp), pages, true);
    MapEnds(Start(sp), pages, true, p, |p.mapped|);
    OnePageOnly(t, pages, |p.mapped|);
    PagesOutcome(Start(sp), pages, true);
    if k: nat :| FailsAt(t, pages, k) { OnePageOnly(t, pages, k); }
  }

  lemma {:induction false} OneAndBack(sp: Space, pages: seq<Page>, p: Progress)
    requires Inv(sp.tables) && Mappable(pages) && p == MapPages(Start(sp), pages, true) && TakesAll(sp.tables, pages)
    ensures p.error.Some?
    ensures var r := Rollback(p.space, p.mapped).tables;
            |r.pool| == 1 && |r.mem| == |sp.tables.mem| + |sp.tables.pool| - 1
  {
    OneMapped(sp, pages, p);
    RollbackUndoes(p.space, p.mapped, Va(0, 0, 0));
  }

  /** Three free pages and no tables: one stack page is mapped and given back, and two tables stay. */
  lemma TablesStay(sp: Space)
    requires Bare(sp.tables) && |sp.tables.pool| == 3
    ensures var p := MapStack(Start(sp));
            var r := Rollback(p.space, p.mapped).tables;
            p.error.Some? && |r.pool| == 1 && |r.mem| == |sp.tables.mem| + 2
  {
    StackMappable();
    BareStack(sp.tables);
    OneAndBack(sp, StackArea(), MapStack(Start(sp)));
  }

  // ----- Success -----

  lemma {:induction false} InstallElsewhere(mem: map<Ppn, seq<Byte>>, pas: seq<Ppn>, m: seq<seq<Byte>>, pa: Ppn)
    requires |pas| == |m| && pa !in pas
    ensures pa in Install(mem, pas, m) <==> pa in mem
    ensures pa in mem ==> Install(mem, pas, m)[pa] == mem[pa]
    decreases |pas|
  {
    if pas != [] { InstallElsewhere(mem[pas[0] := m[0]], pas[1..], m[1..], pa); }
  }

  lemma {:induction false} InstallThere(mem: map<Ppn, seq<Byte>>, pas: seq<Ppn>, m: seq<seq<Byte>>, i: nat)
    requires |pas| == |m| && NoDup(pas) && i < |pas|
    ensures pas[i] in Install(mem, pas, m) && Install(mem, pas, m)[pas[i]] == m[i]
    decreases |pas|
  {
    if i == 0 {
      InstallElsewhere(mem[pas[0] := m[0]], pas[1..], m[1..], pas[0]);
    } else {
      InstallThere(mem[pas[0] := m[0]], pas[1..], m[1..], i - 1);
    }
  }

  /** The stack pages are physical pages of their own. */
  lemma StackPagesDiffer(t: Tables, l: seq<Mapped>)
    requires Sound(t, l) && |l| >= USER_STACK_PAGES
    ensures NoDup(LastPages(l, USER_STACK_PAGES))
    ensures forall k :: 0 <= k < |l| - USER_STACK_PAGES ==> l[k].pa !in LastPages(l, USER_STACK_PAGES)
  {
  }

  /** Address `a` translates, with these flags, to a data page. */
  ghost predicate Seen(sp: Space, a: nat, flags: bv10) {
    && Inv(sp.tables)
    && var x := Translate(sp.tables, Index(a));
       x.Some? && x.value.flags == flags | U && x.value.ppn in sp.mem && |sp.mem[x.value.ppn]| == PAGE_SIZE
  }

  /** What it holds there. */
  ghost function SeenByte(sp: Space, a: nat, flags: bv10): (b: Byte)
    requires Seen(sp, a, flags)
  {
    sp.mem[Translate(sp.tables, Index(a)).value.ppn][a % PAGE_SIZE]
  }

  ghost predicate ReadsWith(sp: Space, a: nat, b: Byte, flags: bv10) {
    Seen(sp, a, flags) && SeenByte(sp, a, flags) == b
  }

  /** All that a program reads through pages with these flags. */
  type View = imap<nat, Byte>

  ghost function ViewOf(sp: Space, flags: bv10): (view: View) {
    imap a: nat | Seen(sp, a, flags) :: SeenByte(sp, a, flags)
  }

  lemma HeldReads(p: Progress, k: nat, page: Page, a: nat)
    requires Inv(p.space.tables) && Holds(p, k, page) && page.va == AlignDown(a) && |page.content| == PAGE_SIZE
    ensures ReadsWith(p.space, a, page.content[a % PAGE_SIZE], page.flags)
  {
    IndexAligned(a);
  }

  /** Writing the arguments leaves the pages of the segments alone. */
  lemma SegmentStays(q: Progress, args: seq<seq<Byte>>, k: nat, page: Page)
    requires Sound(q.space.tables, q.mapped) && FitsFirst(args) && USER_STACK_PAGES <= |q.mapped|
    requires k < |q.mapped| - USER_STACK_PAGES && Holds(q, k, page)
    ensures Holds(WithArgs(q, args), k, page)
  {
    StackPagesDiffer(q.space.tables, q.mapped);
    InstallElsewhere(q.space.mem, LastPages(q.mapped, USER_STACK_PAGES), ArgStack(StackPages(), args), q.mapped[k].pa);
  }

  lemma Rewritten(q: Progress, r: Progress, k: nat, v: Va, old': seq<Byte>, content: seq<Byte>, flags: bv10)
    requires Inv(q.space.tables) && InVa(v) && HoldsAt(q, k, v, old', flags)
    requires r.space.tables == q.space.tables && r.mapped == q.mapped
    requires q.mapped[k].pa in r.space.mem && r.space.mem[q.mapped[k].pa] == content
    ensures HoldsAt(r, k, v, content, flags)
  {
  }

  lemma InstalledAt(mem: map<Ppn, seq<Byte>>, l: seq<Mapped>, m: seq<seq<Byte>>, i: nat, k: nat)
    requires i < USER_STACK_PAGES == |m| <= |l| && k == |l| - USER_STACK_PAGES + i
    requires NoDup(LastPages(l, USER_STACK_PAGES))
    ensures var r := Install(mem, LastPages(l, USER_STACK_PAGES), m); l[k].pa in r && r[l[k].pa] == m[i]
  {
    InstallThere(mem, LastPages(l, USER_STACK_PAGES), m, i);
  }

  ghost predicate Reads(view: View, x: nat, b: Byte) {
    x in view && view[x] == b
  }

  /** The bytes from `x` on read as `data`. */
  ghost predicate ReadsAs(view: View, x: nat, data: seq<Byte>) {
    forall k :: 0 <= k < |data| ==> Reads(view, x + k, data[k])
  }

  /** Every stack address reads as the byte of `m` at its place. */
  ghost predicate Shows(view: View, m: Stack)
    requires Whole(m)
  {
    forall x: nat :: OnStack(x, 1) ==> Reads(view, x, ByteAt(m, x))
  }

  lemma StackAligned(x: nat)
    requires OnStack(x, 1)
    ensures StackPage(PageOf(x)) == AlignDown(x)
  {
    assert STACK_BOTTOM % 4096 == 0;
  }

  lemma StackHeld(q: Progress, n: nat, i: nat)
    requires Inv(q.space.tables) && HoldFrom(q, n, StackArea()) && i < USER_STACK_PAGES
    ensures HoldsAt(q, n + i, Index(StackPage(i)), StackPages()[i], LEAF_RW)
    ensures |q.mapped| == n + USER_STACK_PAGES
  {
    assert Holds(q, n + i, StackArea()[i]);
  }

  lemma StackReads(r: Progress, k: nat, m: Stack, x: nat)
    requires Inv(r.space.tables) && Whole(m) && OnStack(x, 1)
    requires HoldsAt(r, k, Index(StackPage(PageOf(x))), m[PageOf(x)], LEAF_RW)
    ensures ReadsWith(r.space, x, ByteAt(m, x), LEAF_RW)
  {
    StackAligned(x);
    IndexAligned(x);
  }

  /** `r` is `q` with `m` written into the stack pages. */
  ghost predicate Written(q: Progress, r: Progress, m: Stack) {
    && |m| == USER_STACK_PAGES <= |q.mapped| && r.space.tables == q.space.tables && r.mapped == q.mapped
    && r.space.mem == Install(q.space.mem, LastPages(q.mapped, USER_STACK_PAGES), m)
  }

  lemma ArgsInstalled(q: Progress, args: seq<seq<Byte>>, m: Stack)
    requires FitsFirst(args) && USER_STACK_PAGES <= |q.mapped| && m == ArgStack(StackPages(), args)
    ensures Written(q, WithArgs(q, args), m)
  {
  }

  /** Then stack page `i` leads to page `i` of `m`. */
  lemma StackPageHolds(q: Progress, n: nat, m: Stack, r: Progress, i: nat)
    requires Sound(q.space.tables, q.mapped) && HoldFrom(q, n, StackArea()) && i < USER_STACK_PAGES && Written(q, r, m)
    ensures HoldsAt(r, n + i, Index(StackPage(i)), m[i], LEAF_RW)
  {
    StackHeld(q, n, i);
    StackPagesDiffer(q.space.tables, q.mapped);
    InstalledAt(q.space.mem, q.mapped, m, i, n + i);
    Rewritten(q, r, n + i, Index(StackPage(i)), StackPages()[i], m[i], LEAF_RW);
  }

  lemma WrittenByte(q: Progress, n: nat, m: Stack, r: Progress, x: nat, i: nat)
    requires Sound(q.space.tables, q.mapped) && HoldFrom(q, n, StackArea()) && Written(q, r, m) && Whole(m)
    requires OnStack(x, 1) && i == PageOf(x) && i < USER_STACK_PAGES
    ensures ReadsWith(r.space, x, ByteAt(m, x), LEAF_RW)
  {
    StackPageHolds(q, n, m, r, i);
    StackReads(r, n + i, m, x);
  }

  lemma WrittenShows(q: Progress, n: nat, m: Stack, r: Progress)
    requires Sound(q.space.tables, q.mapped) && HoldFrom(q, n, StackArea()) && Written(q, r, m) && Whole(m)
    ensures Shows(ViewOf(r.space, LEAF_RW), m)
  {
    forall x: nat | OnStack(x, 1) ensures Reads(ViewOf(r.space, LEAF_RW), x, ByteAt(m, x)) {
      WrittenByte(q, n, m, r, x, PageOf(x));
    }
  }

  lemma StackShows(p: Progress, args: seq<seq<Byte>>)
    requires Sound(p.space.tables, p.mapped) && p.error.None? && WithStack(p, args).error.None?
    ensures FitsFirst(args) && Shows(ViewOf(WithStack(p, args).space, LEAF_RW), ArgStack(StackPages(), args))
  {
    var m, q := ArgStack(StackPages(), args), MapStack(p);
    StackMapped(p);
    ArgsInstalled(q, args, m);
    WrittenShows(q, |p.mapped|, m, WithArgs(q, args));
  }

  lemma ShowsWord(view: View, m: Stack, x: nat, w: nat)
    requires Whole(m) && Shows(view, m) && WordAt(m, x, w)
    ensures ReadsAs(view, x, Enc(w, 8))
  {
    forall k | 0 <= k < 8 ensures Reads(view, x + k, Enc(w, 8)[k]) { assert ByteAt(m, x + k) == Enc(w, 8)[k]; }
  }

  lemma ShowsString(view: View, m: Stack, at: nat, a: seq<Byte>)
    requires Whole(m) && Shows(view, m) && StringAt(m, at, a)
    ensures ReadsAs(view, at, a + [0])
  {
    forall k | 0 <= k < |a + [0]| ensures Reads(view, at + k, (a + [0])[k]) {
      assert ByteAt(m, at + k) == (a + [0])[k];
    }
  }

  /** The cell holds a pointer, and behind it are the bytes of `a` and a zero. */
  ghost predicate ArgReads(view: View, cell: nat, a: seq<Byte>) {
    exists at: nat :: at < WORD_LIMIT && ReadsAs(view, cell, Enc(at, 8)) && ReadsAs(view, at, a + [0])
  }

  /** The argument count, a null-terminated vector of pointers, and behind them the arguments. */
  ghost predicate ArgsRead(view: View, p: Layout, args: seq<seq<Byte>>) {
    var count, null' := ReadsAs(view, p.sp, Enc(|args|, 8)), ReadsAs(view, p.argv + 8 * |args|, Enc(0, 8));
    count && null' && forall i :: 0 <= i < |args| ==> ArgReads(view, p.argv + 8 * i, args[i])
  }

  lemma ArgShows(view: View, m: Stack, p: Layout, args: seq<seq<Byte>>, i: nat)
    requires Whole(m) && Ordered(p.sp, p.argv, |args| + 1, p.strings, |Blob(args)|) && i < |args|
    requires Shows(view, Build(m, p, args))
    ensures ArgReads(view, p.argv + 8 * i, args[i])
  {
    var at := Starts(p.strings, args)[i];
    SmallWords(args, p.strings);
    assert (Starts(p.strings, args) + [0])[i] == at;
    VectorShows(view, m, p, args, i, at);
    StringStays(m, p, args, i);
    ShowsString(view, Build(m, p, args), at, args[i]);
  }

  lemma CountShows(view: View, m: Stack, p: Layout, args: seq<seq<Byte>>)
    requires Whole(m) && Ordered(p.sp, p.argv, |args| + 1, p.strings, |Blob(args)|) && Shows(view, Build(m, p, args))
    ensures ReadsAs(view, p.sp, Enc(|args|, 8))
  {
    CountReads(m, p, Blob(args), Vector(p, args), |args|);
    ShowsWord(view, Build(m, p, args), p.sp, |args|);
  }

  lemma VectorShows(view: View, m: Stack, p: Layout, args: seq<seq<Byte>>, i: nat, w: nat)
    requires Whole(m) && Ordered(p.sp, p.argv, |args| + 1, p.strings, |Blob(args)|) && Shows(view, Build(m, p, args))
    requires i <= |args| && w == Vector(p, args)[i]
    ensures ReadsAs(view, p.argv + 8 * i, Enc(w, 8))
  {
    VectorSurvives(m, p, Blob(args), Vector(p, args), |args|, i, p.argv + 8 * i);
    ShowsWord(view, Build(m, p, args), p.argv + 8 * i, w);
  }

  lemma ArgsShow(view: View, m: Stack, p: Layout, args: seq<seq<Byte>>)
    requires Whole(m) && Ordered(p.sp, p.argv, |args| + 1, p.strings, |Blob(args)|) && Shows(view, Build(m, p, args))
    ensures ArgsRead(view, p, args)
  {
    CountShows(view, m, p, args);
    VectorShows(view, m, p, args, |args|, 0);
    forall i | 0 <= i < |args| ensures ArgReads(view, p.argv + 8 * i, args[i]) { ArgShows(view, m, p, args, i); }
  }

  /** The `k`-th page of the segments is mapped after the whole load. */
  lemma SegmentPageHolds(sp: Space, segments: seq<Segment>, bytes: seq<Byte>, args: seq<seq<Byte>>, k: nat)
    requires Inv(sp.tables) && AllOk(segments, |bytes|) && Prepared(sp, segments, bytes, args).error.None?
    requires k < |AllPages(segments, bytes)|
    ensures Holds(Prepared(sp, segments, bytes, args), k, AllPages(segments, bytes)[k])
  {
    var pages, p := AllPages(segments, bytes), MapAll(sp, segments, bytes);
    AllMappable(segments, bytes);
    MapPagesFills(Start(sp), pages, false, p);
    assert Holds(p, 0 + k, pages[k]);
    StackMappable();
    StackMapped(p);
    MapPagesKeeps(p, StackArea(), true, MapPages(p, StackArea(), true), k, Index(pages[k].va), pages[k].content,
      pages[k].flags);
    SegmentStays(MapStack(p), args, k, pages[k]);
  }

  lemma SegmentByte(sp: Space, segments: seq<Segment>, bytes: seq<Byte>, args: seq<seq<Byte>>, i: nat, a: nat)
    requires Inv(sp.tables) && AllOk(segments, |bytes|) && Prepared(sp, segments, bytes, args).error.None?
    requires i < |segments| && InPages(segments[i], a)
    ensures var s := segments[i];
            ReadsWith(Prepared(sp, segments, bytes, args).space, a, FileByte(s, bytes, a), SegmentFlags(s.flags))
  {
    var s := segments[i];
    var n := PageNumber(s, bytes, a);
    var k := PagesOf(segments, bytes, i, n);
    SegmentPageHolds(sp, segments, bytes, args, k);
    PageShows(Prepared(sp, segments, bytes, args), k, s, bytes, n, a);
  }

  lemma PageShows(p: Progress, k: nat, s: Segment, bytes: seq<Byte>, n: nat, a: nat)
    requires Inv(p.space.tables) && SegmentOk(s, |bytes|) && Holds(p, k, PageAt(s, bytes, n))
    requires PageAt(s, bytes, n).va == AlignDown(a)
    ensures ReadsWith(p.space, a, FileByte(s, bytes, a), SegmentFlags(s.flags))
  {
    BaseInFile(s, |bytes|, AlignDown(a));
    PageBytesRight(s, bytes, AlignDown(a), a % PAGE_SIZE);
    HeldReads(p, k, PageAt(s, bytes, n), a);
  }

  /**
    Every byte of the pages of every segment reads as the file has it, or as zero, and with the permissions the
    segment asks for.
  */
  ghost predicate SegmentsRead(sp: Space, segments: seq<Segment>, bytes: seq<Byte>)
    requires AllOk(segments, |bytes|)
  {
    forall i, a: nat :: 0 <= i < |segments| && InPages(segments[i], a) ==>
      ReadsWith(sp, a, FileByte(segments[i], bytes, a), SegmentFlags(segments[i].flags))
  }

  /** What was mapped before still is. */
  ghost predicate Kept(t: Tables, r: Tables)
    requires Inv(t) && Inv(r)
  {
    forall w :: InVa(w) && Translate(t, w).Some? ==> Translate(r, w) == Translate(t, w)
  }

  /**
    After a successful load a program finds everything through its page tables: every byte in the pages of every
    segment is the file byte at the matching offset or zero, with the flags of the segment; at the stack pointer, which
    is 16-byte aligned, is the number of arguments, at `argv` a vector of pointers to them and a null; and what was
    mapped before still is.
  */
  lemma LoadedRight(sp: Space, bytes: seq<Byte>, args: seq<seq<Byte>>)
    requires Inv(sp.tables) && Load(sp, true, bytes, args).1.Ok?
    ensures Parse(bytes).Ok? && AllOk(Parse(bytes).value.segments, |bytes|)
    ensures var (r, l) := Load(sp, true, bytes, args);
            && SegmentsRead(r, Parse(bytes).value.segments, bytes)
            && Plan(args).Some? && ArgsRead(ViewOf(r, LEAF_RW), Plan(args).value, args)
            && l.value.sp == Plan(args).value.sp && l.value.sp % 16 == 0 && l.value.argv == Plan(args).value.argv
            && l.value.argc == |args|
            && Kept(sp.tables, r.tables)
  {
    ParseGood(bytes);
    var segments := Parse(bytes).value.segments;
    var p, r := MapAll(sp, segments, bytes), Prepared(sp, segments, bytes, args);
    PreparedRuns(sp, segments, bytes, args);
    forall i, a: nat | 0 <= i < |segments| && InPages(segments[i], a)
      ensures ReadsWith(r.space, a, FileByte(segments[i], bytes, a), SegmentFlags(segments[i].flags))
    {
      SegmentByte(sp, segments, bytes, args, i, a);
    }
    StackShows(p, args);
    PlanGood(args);
    ArgsShow(ViewOf(r.space, LEAF_RW), StackPages(), Plan(args).value, args);
  }
}
