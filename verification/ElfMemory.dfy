/** What memory mapping a list of pages needs, data pages and tables together, and what happens when it is not there. */
module ElfMemory {
  import opened Common
  import opened ElfParse
  import opened MmuModel
  import opened MmuOps
  import opened MmuGrowth
  import opened ElfLoad

  /** The tables on the way to some of the pages. */
  function Ways(pages: seq<Page>): (r: set<Role>)
    decreases |pages|
  {
    if pages == [] then {} else Way(Index(pages[0].va)) + Ways(pages[1..])
  }

  /** The pages by their table indices. */
  function Places(pages: seq<Page>): (r: set<Va>)
    ensures forall v :: v in r ==> InVa(v)
    decreases |pages|
  {
    if pages == [] then {} else {Index(pages[0].va)} + Places(pages[1..])
  }

  /** Nothing is mapped at any of the pages, and no two are the same. */
  ghost predicate Vacant(t: Tables, pages: seq<Page>)
    requires Inv(t)
    decreases |pages|
  {
    pages == [] ||
    (!Taken(t, Index(pages[0].va)) && Index(pages[0].va) !in Places(pages[1..]) && Vacant(t, pages[1..]))
  }

  /** How many pages of the pool it takes: one for each, and one for each table that does not exist. */
  ghost function Cost(t: Tables, pages: seq<Page>): (n: nat) {
    |pages| + |Ways(pages) - t.role.Values|
  }

  lemma {:induction false} Joined(a: seq<Page>, b: seq<Page>)
    ensures Ways(a + b) == Ways(a) + Ways(b) && Places(a + b) == Places(a) + Places(b)
    decreases |a|
  {
    if a == [] {
      assert a + b == b;
    } else {
      assert (a + b)[1..] == a[1..] + b;
      Joined(a[1..], b);
    }
  }

  lemma {:induction false} VacantJoined(t: Tables, a: seq<Page>, b: seq<Page>)
    requires Inv(t)
    ensures Vacant(t, a + b) <==> Vacant(t, a) && Vacant(t, b) && Places(a) !! Places(b)
    decreases |a|
  {
    if a == [] {
      assert a + b == b;
    } else {
      assert (a + b)[0] == a[0] && (a + b)[1..] == a[1..] + b;
      VacantJoined(t, a[1..], b);
      Joined(a[1..], b);
    }
  }

  lemma {:induction false} VacantIff(t: Tables, pages: seq<Page>)
    requires Inv(t)
    ensures Vacant(t, pages) <==>
            && (forall i :: 0 <= i < |pages| ==> !Taken(t, Index(pages[i].va)))
            && (forall i, j :: 0 <= i < j < |pages| ==> Index(pages[i].va) != Index(pages[j].va))
    decreases |pages|
  {
    if pages != [] {
      var rest := pages[1..];
      VacantIff(t, rest);
      PlacesIff(rest, Index(pages[0].va));
      assert forall i :: 0 < i < |pages| ==> pages[i] == rest[i - 1];
      assert (forall i :: 0 <= i < |pages| ==> !Taken(t, Index(pages[i].va))) <==>
             !Taken(t, Index(pages[0].va)) && forall i :: 0 <= i < |rest| ==> !Taken(t, Index(rest[i].va));
    }
  }

  lemma {:induction false} PlacesIff(pages: seq<Page>, v: Va)
    ensures v in Places(pages) <==> exists i :: 0 <= i < |pages| && Index(pages[i].va) == v
    decreases |pages|
  {
    if pages != [] {
      PlacesIff(pages[1..], v);
      assert forall i :: 0 < i < |pages| ==> pages[i] == pages[1..][i - 1];
    }
  }

  /** Besides what was mapped, the given pages are. */
  ghost predicate Filled(t: Tables, r: Tables, pages: seq<Page>)
    requires Inv(t) && Inv(r)
  {
    forall w :: InVa(w) ==> (Taken(r, w) <==> Taken(t, w) || w in Places(pages))
  }

  /** The tables on their way exist, and the pool has paid for them. */
  ghost predicate Paid(t: Tables, r: Tables, pages: seq<Page>) {
    r.role.Values == t.role.Values + Ways(pages) && |r.pool| + Cost(t, pages) == |t.pool|
  }

  /** `r` is `t` with the given pages mapped. */
  ghost predicate After(t: Tables, r: Tables, pages: seq<Page>)
    requires Inv(t) && Inv(r)
  {
    Paid(t, r, pages) && Filled(t, r, pages)
  }

  lemma NewCount(places: set<Role>, a: set<Role>, b: set<Role>)
    ensures |a + b - places| == |a - places| + |b - (places + a)|
  {
    assert a + b - places == (a - places) + (b - (places + a));
  }

  lemma {:induction false} VacantLater(t: Tables, r: Tables, a: seq<Page>, b: seq<Page>)
    requires Inv(t) && Inv(r) && Filled(t, r, a)
    ensures Vacant(r, b) <==> Vacant(t, b) && Places(a) !! Places(b)
    decreases |b|
  {
    if b != [] { VacantLater(t, r, a, b[1..]); }
  }

  lemma VacantNext(t: Tables, r: Tables, a: seq<Page>, b: seq<Page>)
    requires Inv(t) && Inv(r) && Filled(t, r, a) && Vacant(t, a)
    ensures Vacant(r, b) <==> Vacant(t, a + b)
  {
    VacantJoined(t, a, b);
    VacantLater(t, r, a, b);
  }

  lemma CostNext(t: Tables, r: Tables, a: seq<Page>, b: seq<Page>)
    requires Paid(t, r, a)
    ensures Cost(t, a + b) == Cost(t, a) + Cost(r, b)
  {
    Joined(a, b);
    NewCount(t.role.Values, Ways(a), Ways(b));
  }

  lemma PaidBoth(t: Tables, s: Tables, r: Tables, a: seq<Page>, b: seq<Page>)
    requires Paid(t, s, a) && Paid(s, r, b)
    ensures Paid(t, r, a + b)
  {
    CostNext(t, s, a, b);
    Joined(a, b);
  }

  lemma AfterBoth(t: Tables, s: Tables, r: Tables, a: seq<Page>, b: seq<Page>)
    requires Inv(t) && Inv(s) && Inv(r) && After(t, s, a) && After(s, r, b)
    ensures After(t, r, a + b)
  {
    PaidBoth(t, s, r, a, b);
    Joined(a, b);
  }

  /** The pool is enough for the pages `a` and one more, but not for the pages `b`. */
  ghost predicate Short(t: Tables, a: seq<Page>, b: seq<Page>) {
    Cost(t, a) < |t.pool| < Cost(t, b)
  }

  lemma ShortLater(t: Tables, r: Tables, a: seq<Page>, b: seq<Page>, c: seq<Page>)
    requires Paid(t, r, a)
    ensures Short(r, b, c) <==> Short(t, a + b, a + c)
  {
    CostNext(t, r, a, b);
    CostNext(t, r, a, c);
  }

  ghost predicate FailsBetween(t: Tables, a: seq<Page>, b: seq<Page>)
    requires Inv(t)
  {
    Vacant(t, b) && Short(t, a, b)
  }

  lemma FailsNext(t: Tables, r: Tables, a: seq<Page>, b: seq<Page>, c: seq<Page>, ab: seq<Page>, ac: seq<Page>)
    requires Inv(t) && Inv(r) && After(t, r, a) && Vacant(t, a) && ab == a + b && ac == a + c
    ensures FailsBetween(r, b, c) <==> FailsBetween(t, ab, ac)
  {
    ShortLater(t, r, a, b, c);
    VacantNext(t, r, a, c);
  }

  /** Page `k` is the first that cannot be mapped, for want of tables: its data page can still be had. */
  ghost predicate FailsAt(t: Tables, pages: seq<Page>, k: nat)
    requires Inv(t)
  {
    k < |pages| && FailsBetween(t, pages[..k], pages[..k + 1])
  }

  lemma Prefix(a: seq<Page>, b: seq<Page>, k: nat)
    requires k <= |b|
    ensures (a + b)[..|a| + k] == a + b[..k]
  {
  }

  lemma FailsLater(t: Tables, r: Tables, a: seq<Page>, b: seq<Page>, k: nat)
    requires Inv(t) && Inv(r) && After(t, r, a) && Vacant(t, a) && k < |b|
    ensures FailsAt(r, b, k) <==> FailsAt(t, a + b, |a| + k)
  {
    Prefix(a, b, k);
    Prefix(a, b, k + 1);
    FailsNext(t, r, a, b[..k], b[..k + 1], (a + b)[..|a| + k], (a + b)[..|a| + k + 1]);
  }

  // ----- One page -----

  lemma OnePage(t: Tables, page: Page, v: Va)
    requires Inv(t) && v == Index(page.va)
    ensures Ways([page]) == Way(v) && Places([page]) == {v} && Cost(t, [page]) == 1 + |Way(v) - t.role.Values|
    ensures Vacant(t, [page]) <==> !Taken(t, v)
  {
    assert [page][1..] == [];
  }

  lemma OnePaid(t: Tables, u: Tables, r: Tables, page: Page, v: Va)
    requires Inv(t) && v == Index(page.va) && t.pool != [] && u == Taking(t)
    requires r.role.Values == u.role.Values + Way(v) && |r.pool| == |u.pool| - |Way(v) - u.role.Values|
    ensures Paid(t, r, [page])
  {
    OnePage(t, page, v);
  }

  lemma OneTaken(t: Tables, u: Tables, r: Tables, page: Page, v: Va)
    requires Inv(t) && Inv(u) && Inv(r) && v == Index(page.va) && Taken(r, v) && OthersEnd(u, r, v)
    requires forall w :: InVa(w) ==> LeafPte(u, w) == LeafPte(t, w)
    ensures Filled(t, r, [page])
  {
    OnePage(t, page, v);
  }

  lemma OneFilled(t: Tables, u: Tables, r: Tables, page: Page, v: Va, ok: bool, ppn: Ppn)
    requires Inv(t) && Inv(u) && Inv(r) && v == Index(page.va) && t.pool != [] && u == Taking(t)
    requires MappedAt(u, v, r, ok, ppn, page.flags)
    requires forall w :: InVa(w) ==> LeafPte(u, w) == LeafPte(t, w)
    ensures ok <==> Cost(t, [page]) <= |t.pool|
    ensures ok ==> After(t, r, [page])
  {
    OnePage(t, page, v);
    if ok {
      OnePaid(t, u, r, page, v);
      OneTaken(t, u, r, page, v);
    }
  }

  /** Nothing fits between no page and one page exactly when the page is free and its tables cannot be made. */
  lemma OneFails(t: Tables, page: Page, v: Va)
    requires Inv(t) && v == Index(page.va)
    ensures FailsAt(t, [page], 0) <==> !Taken(t, v) && 0 < |t.pool| < Cost(t, [page])
  {
    OnePage(t, page, v);
    assert [page][..0] == [] && [page][..1] == [page];
    assert Ways([]) - t.role.Values == {};
  }

  lemma FillOne(p: Progress, page: Page, lost: bool)
    requires Sound(p.space.tables, p.mapped) && p.error.None? && page.va < USER_VA_LIMIT && LeafFlags(page.flags)
    ensures var t, f := p.space.tables, Fill(p, page, lost);
            && Inv(f.space.tables)
            && (f.error.None? <==> Vacant(t, [page]) && Cost(t, [page]) <= |t.pool|)
            && (f.error.None? ==> After(t, f.space.tables, [page]))
            && (f.error == Some(MapFailed) <==> FailsAt(t, [page], 0))
  {
    FillSound(p, page, lost);
    var t, v := p.space.tables, Index(page.va);
    OnePage(t, page, v);
    OneFails(t, page, v);
    if !Taken(t, v) && t.pool != [] {
      FillMaps(p, page);
      TakingOk(t);
      var (r, ok) := MapUserPage(Taking(t), page.va, PageAddress(t.pool[0]), page.flags, true);
      OneFilled(t, Taking(t), r, page, v, ok, t.pool[0]);
    }
  }

  // ----- All pages -----

  ghost predicate SomeFails(t: Tables, pages: seq<Page>)
    requires Inv(t)
  {
    exists k: nat :: FailsAt(t, pages, k)
  }

  lemma FirstFails(t: Tables, page: Page, rest: seq<Page>)
    requires Inv(t)
    ensures FailsAt(t, [page] + rest, 0) <==> FailsAt(t, [page], 0)
  {
    assert ([page] + rest)[..0] == [page][..0] && ([page] + rest)[..1] == [page][..1];
  }

  lemma RestFails(t: Tables, r: Tables, page: Page, rest: seq<Page>)
    requires Inv(t) && Inv(r) && After(t, r, [page]) && Vacant(t, [page])
    ensures SomeFails(t, [page] + rest) <==> SomeFails(r, rest)
  {
    FirstFails(t, page, rest);
    OneFails(t, page, Index(page.va));
    if k: nat :| FailsAt(t, [page] + rest, k) { FailsLater(t, r, [page], rest, k - 1); }
    if k: nat :| FailsAt(r, rest, k) { FailsLater(t, r, [page], rest, k); }
  }

  lemma NoneAfter(t: Tables, page: Page, rest: seq<Page>)
    requires Inv(t) && !(Vacant(t, [page]) && Cost(t, [page]) <= |t.pool|)
    ensures !(Vacant(t, [page] + rest) && Cost(t, [page] + rest) <= |t.pool|)
    ensures SomeFails(t, [page] + rest) <==> FailsAt(t, [page], 0)
  {
    FirstFails(t, page, rest);
    VacantJoined(t, [page], rest);
    CostGrows(t, [page], rest);
    if k: nat :| FailsAt(t, [page] + rest, k) && k > 0 { LaterFails(t, page, rest, k); }
  }

  lemma CostGrows(t: Tables, a: seq<Page>, b: seq<Page>)
    ensures Cost(t, a) <= Cost(t, a + b)
  {
    Joined(a, b);
    NewCount(t.role.Values, Ways(a), Ways(b));
  }

  /** A later page can only fail when the first one does not. */
  lemma LaterFails(t: Tables, page: Page, rest: seq<Page>, k: nat)
    requires Inv(t) && FailsAt(t, [page] + rest, k) && k > 0
    ensures Vacant(t, [page]) && Cost(t, [page]) <= |t.pool|
  {
    Prefix([page], rest, k - 1);
    Prefix([page], rest, k);
    CostGrows(t, [page], rest[..k - 1]);
    VacantJoined(t, [page], rest[..k]);
  }

  /** How mapping `pages` in `t` ends, with tables `r`. */
  ghost predicate Outcome(t: Tables, pages: seq<Page>, r: Tables, error: Option<Error>)
    requires Inv(t) && Inv(r)
  {
    && (error.None? <==> Vacant(t, pages) && Cost(t, pages) <= |t.pool|)
    && (error.None? ==> After(t, r, pages))
    && (error == Some(MapFailed) <==> SomeFails(t, pages))
  }

  lemma OutcomeNone(t: Tables)
    requires Inv(t)
    ensures Outcome(t, [], t, None)
  {
    assert Ways([]) - t.role.Values == {};
  }

  lemma OutcomeNext(t: Tables, s: Tables, r: Tables, page: Page, rest: seq<Page>, error: Option<Error>)
    requires Inv(t) && Inv(s) && Inv(r) && After(t, s, [page]) && Vacant(t, [page]) && Outcome(s, rest, r, error)
    ensures Outcome(t, [page] + rest, r, error)
  {
    VacantNext(t, s, [page], rest);
    CostNext(t, s, [page], rest);
    RestFails(t, s, page, rest);
    if After(s, r, rest) { AfterBoth(t, s, r, [page], rest); }
  }

  lemma OutcomeFirst(t: Tables, r: Tables, page: Page, rest: seq<Page>, error: Option<Error>)
    requires Inv(t) && Inv(r) && error.Some? && !(Vacant(t, [page]) && Cost(t, [page]) <= |t.pool|)
    requires error == Some(MapFailed) <==> FailsAt(t, [page], 0)
    ensures Outcome(t, [page] + rest, r, error)
  {
    NoneAfter(t, page, rest);
  }

  /**
    Mapping pages succeeds exactly when they are vacant and the pool has a page for each and for each missing table,
    and then exactly that has been taken; it fails for want of a table exactly when the pool runs short between a data
    page and its tables.
  */
  lemma {:induction false} PagesOutcome(p: Progress, pages: seq<Page>, lost: bool)
    requires Sound(p.space.tables, p.mapped) && p.error.None? && Mappable(pages)
    ensures var r := MapPages(p, pages, lost); Outcome(p.space.tables, pages, r.space.tables, r.error)
    decreases |pages|
  {
    var t := p.space.tables;
    if pages == [] {
      OutcomeNone(t);
    } else {
      var f, page, rest := Fill(p, pages[0], lost), pages[0], pages[1..];
      assert pages == [page] + rest;
      MapStep(p, f, page, rest, lost);
      FillOne(p, page, lost);
      if f.error.None? {
        PagesOutcome(f, rest, lost);
        var r := MapPages(f, rest, lost);
        OutcomeNext(t, f.space.tables, r.space.tables, page, rest, r.error);
      } else {
        OutcomeFirst(t, f.space.tables, page, rest, f.error);
      }
    }
  }

  // ----- The pool -----

  /** Pages of the pool and tables, together with the data pages mapped. */
  function Stock(p: Progress): (n: nat) {
    |p.space.tables.pool| + |p.space.tables.mem| + |p.mapped|
  }

  lemma FillStock(p: Progress, page: Page, lost: bool)
    requires Sound(p.space.tables, p.mapped) && p.error.None? && page.va < USER_VA_LIMIT && LeafFlags(page.flags)
    ensures var f := Fill(p, page, lost);
            Stock(f) == Stock(p) - if lost && f.error == Some(MapFailed) then 1 else 0
  {
    var t := p.space.tables;
    if !Taken(t, Index(page.va)) && t.pool != [] { FillMaps(p, page); }
  }

  /** No page gets lost, except one when the mapping of a page fails that is not given back. */
  lemma {:induction false} MapPagesStock(p: Progress, pages: seq<Page>, lost: bool)
    requires Sound(p.space.tables, p.mapped) && p.error.None? && Mappable(pages)
    ensures var r := MapPages(p, pages, lost);
            Stock(r) == Stock(p) - if lost && r.error == Some(MapFailed) then 1 else 0
    decreases |pages|
  {
    if pages != [] {
      var f, page, rest := Fill(p, pages[0], lost), pages[0], pages[1..];
      assert pages == [page] + rest;
      MapStep(p, f, page, rest, lost);
      FillStock(p, page, lost);
      if f.error.None? { MapPagesStock(f, rest, lost); }
    }
  }

  // ----- How far it gets -----

  ghost predicate Affordable(t: Tables, pages: seq<Page>)
    requires Inv(t)
  {
    Vacant(t, pages) && Cost(t, pages) <= |t.pool|
  }

  /** The first `n` pages can be mapped and one more cannot. */
  ghost predicate Stops(t: Tables, pages: seq<Page>, n: nat)
    requires Inv(t)
  {
    n <= |pages| && Affordable(t, pages[..n]) && (n < |pages| ==> !Affordable(t, pages[..n + 1]))
  }

  lemma AffordableNext(t: Tables, s: Tables, a: seq<Page>, b: seq<Page>, ab: seq<Page>)
    requires Inv(t) && Inv(s) && After(t, s, a) && Vacant(t, a) && ab == a + b
    ensures Affordable(t, ab) <==> Affordable(s, b)
  {
    VacantNext(t, s, a, b);
    CostNext(t, s, a, b);
  }

  lemma StopsNext(t: Tables, s: Tables, page: Page, rest: seq<Page>, n: nat)
    requires Inv(t) && Inv(s) && After(t, s, [page]) && Vacant(t, [page]) && Stops(s, rest, n)
    ensures Stops(t, [page] + rest, n + 1)
  {
    var pages := [page] + rest;
    Prefix([page], rest, n);
    AffordableNext(t, s, [page], rest[..n], pages[..n + 1]);
    if n < |rest| {
      Prefix([page], rest, n + 1);
      AffordableNext(t, s, [page], rest[..n + 1], pages[..n + 2]);
    }
  }

  lemma StopsAtOnce(t: Tables, pages: seq<Page>)
    requires Inv(t) && (pages == [] || !Affordable(t, [pages[0]]))
    ensures Stops(t, pages, 0) && Paid(t, t, [])
  {
    assert pages[..0] == [] && Ways([]) - t.role.Values == {};
    if pages != [] { assert pages[..1] == [pages[0]]; }
  }

  /** What is left where mapping stopped after `n` pages. */
  ghost predicate Left(t: Tables, pages: seq<Page>, n: nat, r: Tables, error: Option<Error>, lost: bool)
    requires n <= |pages|
  {
    if error == Some(MapFailed) then |r.pool| == (if lost then 0 else 1) else Paid(t, r, pages[..n])
  }

  lemma FillLeft(p: Progress, page: Page, lost: bool)
    requires Sound(p.space.tables, p.mapped) && p.error.None? && page.va < USER_VA_LIMIT && LeafFlags(page.flags)
    ensures var t, f := p.space.tables, Fill(p, page, lost);
            && (f.error.None? ==> |f.mapped| == |p.mapped| + 1) && (f.error.Some? ==> f.mapped == p.mapped)
            && (f.error == Some(MapFailed) ==> |f.space.tables.pool| == if lost then 0 else 1)
            && (f.error.Some? && f.error != Some(MapFailed) ==> f.space.tables == t)
  {
    var t := p.space.tables;
    if !Taken(t, Index(page.va)) && t.pool != [] { FillMaps(p, page); }
  }

  lemma LeftNext(t: Tables, s: Tables, page: Page, rest: seq<Page>, n: nat, r: Tables, error: Option<Error>, lost: bool)
    requires Paid(t, s, [page]) && n <= |rest| && Left(s, rest, n, r, error, lost)
    ensures Left(t, [page] + rest, n + 1, r, error, lost)
  {
    Prefix([page], rest, n);
    if error != Some(MapFailed) { PaidBoth(t, s, r, [page], rest[..n]); }
  }

  /** Mapping stopped after `n` pages, as far as the pool goes, and left what it had to. */
  ghost predicate Ends(t: Tables, pages: seq<Page>, n: nat, r: Tables, error: Option<Error>, lost: bool)
    requires Inv(t)
  {
    Stops(t, pages, n) && (error.None? <==> n == |pages|) && Left(t, pages, n, r, error, lost)
  }

  lemma EndsFirst(p: Progress, f: Progress, page: Page, rest: seq<Page>, lost: bool)
    requires Sound(p.space.tables, p.mapped) && p.error.None? && page.va < USER_VA_LIMIT && LeafFlags(page.flags)
    requires f == Fill(p, page, lost) && f.error.Some?
    ensures Ends(p.space.tables, [page] + rest, 0, f.space.tables, f.error, lost) && f.mapped == p.mapped
  {
    FillOne(p, page, lost);
    FillLeft(p, page, lost);
    StopsAtOnce(p.space.tables, [page] + rest);
    assert ([page] + rest)[..0] == [];
  }

  lemma EndsRest(p: Progress, f: Progress, page: Page, rest: seq<Page>, lost: bool, r: Progress, n: nat)
    requires Sound(p.space.tables, p.mapped) && p.error.None? && page.va < USER_VA_LIMIT && LeafFlags(page.flags)
    requires f == Fill(p, page, lost) && f.error.None? && Inv(f.space.tables)
    requires Ends(f.space.tables, rest, n, r.space.tables, r.error, lost)
    ensures Ends(p.space.tables, [page] + rest, n + 1, r.space.tables, r.error, lost)
  {
    FillOne(p, page, lost);
    StopsNext(p.space.tables, f.space.tables, page, rest, n);
    LeftNext(p.space.tables, f.space.tables, page, rest, n, r.space.tables, r.error, lost);
  }

  /** `f` is what is left to do after the first page. */
  lemma EndsNext(p: Progress, pages: seq<Page>, lost: bool, r: Progress, n: nat) returns (f: Progress)
    requires Sound(p.space.tables, p.mapped) && p.error.None? && Mappable(pages) && pages != []
    requires r == MapPages(p, pages, lost) && |r.mapped| == |p.mapped| + n
    ensures f.error.Some? ==> Ends(p.space.tables, pages, n, r.space.tables, r.error, lost)
    ensures f.error.None? ==>
              && Sound(f.space.tables, f.mapped) && Mappable(pages[1..]) && r == MapPages(f, pages[1..], lost)
              && |f.mapped| == |p.mapped| + 1 && n > 0
              && (Ends(f.space.tables, pages[1..], n - 1, r.space.tables, r.error, lost) ==>
                    Ends(p.space.tables, pages, n, r.space.tables, r.error, lost))
  {
    f := Fill(p, pages[0], lost);
    var page, rest := pages[0], pages[1..];
    assert pages == [page] + rest;
    MapStep(p, f, page, rest, lost);
    FillLeft(p, page, lost);
    if f.error.Some? {
      EndsFirst(p, f, page, rest, lost);
    } else if Ends(f.space.tables, rest, n - 1, r.space.tables, r.error, lost) {
      EndsRest(p, f, page, rest, lost, r, n - 1);
    }
  }

  /** Mapping stops at the first page that is not vacant or not to be paid for, and has paid for those before it. */
  lemma {:induction false} MapEnds(p: Progress, pages: seq<Page>, lost: bool, r: Progress, n: nat)
    requires Sound(p.space.tables, p.mapped) && p.error.None? && Mappable(pages)
    requires r == MapPages(p, pages, lost) && |r.mapped| == |p.mapped| + n
    ensures Ends(p.space.tables, pages, n, r.space.tables, r.error, lost)
    decreases |pages|
  {
    if pages == [] {
      StopsAtOnce(p.space.tables, pages);
    } else {
      var f := EndsNext(p, pages, lost, r, n);
      if f.error.None? { MapEnds(f, pages[1..], lost, r, n - 1); }
    }
  }
}
