/**
  Mapping the pages of the segments and of the stack one by one, and taking them back when something
  fails. The address space is its page tables; data pages and tables come from one pool.
*/
module ElfLoad {
  import opened Common
  import opened ElfParse
  import opened MmuModel
  import opened MmuOps
  import opened MmuGrowth

  const USER_STACK_TOP: nat := 0x3F_FFFF_0000
  const USER_STACK_PAGES := 8
  /** Eight pages below the top. */
  const STACK_BOTTOM: nat := 0x3F_FFFE_8000

  /** Page tables, with the pool of free pages in the order they are handed out, and the contents of data pages. */
  datatype Space = Space(tables: Tables, mem: map<Ppn, seq<Byte>>)

  /** A page to be mapped. */
  datatype Page = Page(va: nat, content: seq<Byte>, flags: bv10)

  /** A page that has been mapped, by its table indices. */
  datatype Mapped = Mapped(v: Va, pa: Ppn)

  /** Where a loading step leaves off. */
  datatype Progress = Progress(space: Space, mapped: seq<Mapped>, error: Option<Error>)

  // ----- The contents of a page -----

  /** What address `a` of segment `s` must hold: the file byte at the matching offset, or zero. */
  function FileByte(s: Segment, bytes: seq<Byte>, a: nat): (b: Byte)
    requires SegmentOk(s, |bytes|)
  {
    if s.vaddr <= a < s.vaddr + s.filesz then bytes[s.offset + (a - s.vaddr)] else 0
  }

  /** File offset that corresponds to page `va`. */
  function Base(s: Segment, va: nat): (r: int) {
    s.offset + va - s.vaddr
  }

  function Zeros(n: nat): (r: seq<Byte>)
    ensures |r| == n
  {
    seq(n, i => 0)
  }

  /** A zeroed page after the copy that `map_segment` makes: file bytes `lo .. hi` at their place. */
  function PageBytes(s: Segment, bytes: seq<Byte>, va: nat): (p: seq<Byte>)
    requires SegmentOk(s, |bytes|) && Base(s, va) >= 0
    ensures |p| == PAGE_SIZE
  {
    var base := Base(s, va);
    var lo := if base > s.offset then base else s.offset;
    var hi := if base + PAGE_SIZE < s.offset + s.filesz then base + PAGE_SIZE else s.offset + s.filesz;
    if lo < hi then Zeros(lo - base) + bytes[lo..hi] + Zeros(base + PAGE_SIZE - hi) else Zeros(PAGE_SIZE)
  }

  lemma PageBytesRight(s: Segment, bytes: seq<Byte>, va: nat, o: nat)
    requires SegmentOk(s, |bytes|) && Base(s, va) >= 0 && o < PAGE_SIZE
    ensures PageBytes(s, bytes, va)[o] == FileByte(s, bytes, va + o)
  {
  }

  /** Every page of a segment corresponds to a place in the file, or before or behind its part of it. */
  lemma BaseInFile(s: Segment, len: nat, va: nat)
    requires SegmentOk(s, len) && PageStart(s) <= va
    ensures Base(s, va) >= 0
  {
    assert s.offset >= s.offset % PAGE_SIZE;
  }

  // ----- The pages to map -----

  /** `segment_flags` */
  function SegmentFlags(flags: nat): (f: bv10) {
    if flags % 2 == 1 then 0xCB else if flags / 2 % 2 == 1 then LEAF_RW else 0xC3
  }

  /**
    A page is always readable, executable exactly if its segment asks for that, and writable exactly if it asks for
    that and not for execution: none is both.
  */
  lemma FlagsSafe(flags: nat)
    ensures var f, executes, writes := SegmentFlags(flags), flags % 2 == 1, flags / 2 % 2 == 1;
            && LeafFlags(f) && f & R != 0 && (f & X != 0 <==> executes) && (f & W != 0 <==> writes && !executes)
  {
  }

  function PageCount(s: Segment): (n: nat) {
    StartBeforeEnd(s);
    (PageEnd(s) - PageStart(s)) / 4096
  }

  /** The pages of a segment, in address order. */
  function SegmentPages(s: Segment, bytes: seq<Byte>): (r: seq<Page>)
    requires SegmentOk(s, |bytes|)
  {
    seq(PageCount(s), i requires 0 <= i < PageCount(s) => PageAt(s, bytes, i))
  }

  function PageAt(s: Segment, bytes: seq<Byte>, i: nat): (p: Page)
    requires SegmentOk(s, |bytes|)
    ensures p.va == PageStart(s) + 4096 * i
  {
    var va := PageStart(s) + 4096 * i;
    BaseInFile(s, |bytes|, va);
    Page(va, PageBytes(s, bytes, va), SegmentFlags(s.flags))
  }

  lemma PageIs(s: Segment, bytes: seq<Byte>, i: nat, va: nat)
    requires SegmentOk(s, |bytes|) && va == PageStart(s) + 4096 * i
    ensures Base(s, va) >= 0 && (va < PageEnd(s) <==> i < PageCount(s))
    ensures i < PageCount(s) ==>
      SegmentPages(s, bytes)[i] == Page(va, PageBytes(s, bytes, va), SegmentFlags(s.flags))
  {
    BaseInFile(s, |bytes|, va);
    StartBeforeEnd(s);
  }

  lemma FirstOfRest(pages: seq<Page>, i: nat)
    requires i < |pages|
    ensures pages[i..] == [pages[i]] + pages[i + 1..]
  {
  }

  /** The page loop of `map_segment` reaches page `i` at address `va`. */
  lemma PageHere(s: Segment, bytes: seq<Byte>, pages: seq<Page>, i: nat, va: nat)
    requires SegmentOk(s, |bytes|) && pages == SegmentPages(s, bytes) && va == PageStart(s) + 4096 * i
    ensures Base(s, va) >= 0 && (va < PageEnd(s) <==> i < |pages|)
    ensures i < |pages| ==>
      pages[i..] == [Page(va, PageBytes(s, bytes, va), SegmentFlags(s.flags))] + pages[i + 1..]
  {
    PageIs(s, bytes, i, va);
    if i < |pages| { FirstOfRest(pages, i); }
  }

  ghost predicate AllOk(segments: seq<Segment>, len: nat) {
    forall i :: 0 <= i < |segments| ==> SegmentOk(segments[i], len)
  }

  /** The pages of all segments. */
  function AllPages(segments: seq<Segment>, bytes: seq<Byte>): (r: seq<Page>)
    requires AllOk(segments, |bytes|)
  {
    if segments == [] then [] else SegmentPages(segments[0], bytes) + AllPages(segments[1..], bytes)
  }

  function StackPages(): (r: seq<seq<Byte>>)
    ensures |r| == USER_STACK_PAGES
  {
    seq(USER_STACK_PAGES, i => Zeros(PAGE_SIZE))
  }

  /** The `k`-th stack page. */
  function StackPage(k: nat): (va: nat) {
    STACK_BOTTOM + 4096 * k
  }

  /** The pages of the stack. */
  function StackArea(): (r: seq<Page>)
    ensures |r| == USER_STACK_PAGES
  {
    seq(USER_STACK_PAGES, i requires 0 <= i < USER_STACK_PAGES => Page(StackPage(i), StackPages()[i], LEAF_RW))
  }

  /** The page loop of `build_user_stack` reaches page `i`. */
  lemma StackNext(pages: seq<Page>, i: nat)
    requires pages == StackArea() && i < USER_STACK_PAGES
    ensures pages[i..] == [Page(StackPage(i), Zeros(PAGE_SIZE), LEAF_RW)] + pages[i + 1..]
  {
  }

  /** Pages that `map_user_page` does not refuse for their address or flags. */
  ghost predicate Mappable(pages: seq<Page>) {
    forall i :: 0 <= i < |pages| ==> pages[i].va < USER_VA_LIMIT && LeafFlags(pages[i].flags)
  }

  lemma SegmentMappable(s: Segment, bytes: seq<Byte>)
    requires SegmentOk(s, |bytes|)
    ensures Mappable(SegmentPages(s, bytes))
  {
    EndInRange(s, |bytes|);
    FlagsSafe(s.flags);
    forall i | 0 <= i < PageCount(s) ensures SegmentPages(s, bytes)[i].va < USER_VA_LIMIT {
      assert SegmentPages(s, bytes)[i] == PageAt(s, bytes, i);
    }
  }

  lemma {:induction false} AllMappable(segments: seq<Segment>, bytes: seq<Byte>)
    requires AllOk(segments, |bytes|)
    ensures Mappable(AllPages(segments, bytes))
    decreases |segments|
  {
    if segments != [] {
      SegmentMappable(segments[0], bytes);
      AllMappable(segments[1..], bytes);
    }
  }

  lemma StackMappable()
    ensures Mappable(StackArea())
  {
  }

  // ----- Mapping pages -----

  /** The mapped pages are different pages, apart from the pool and the tables. */
  ghost predicate Apart(l: seq<Mapped>, pool: seq<Ppn>, tables: set<Ppn>) {
    && (forall k :: 0 <= k < |l| ==> l[k].pa !in pool && l[k].pa !in tables)
    && (forall i, j :: 0 <= i < j < |l| ==> l[i].pa != l[j].pa)
  }

  /** Their tables exist. */
  ghost predicate Reached(l: seq<Mapped>, places: set<Role>) {
    forall k :: 0 <= k < |l| ==> InVa(l[k].v) && Way(l[k].v) <= places
  }

  ghost predicate Sound(t: Tables, l: seq<Mapped>) {
    Inv(t) && Apart(l, t.pool, t.mem.Keys) && Reached(l, t.role.Values)
  }

  /** The allocator hands out a page. */
  function Taking(t: Tables): (r: Tables)
    requires t.pool != []
  {
    t.(pool := t.pool[1..])
  }

  /** And takes one back. */
  function GiveBack(t: Tables, pa: Ppn): (r: Tables) {
    t.(pool := [pa] + t.pool)
  }

  lemma PoolOnly(t: Tables, r: Tables)
    requires Inv(t) && r == t.(pool := r.pool) && NoDup(r.pool) && forall p :: p in r.pool ==> p !in r.mem
    ensures Inv(r)
    ensures forall w :: InVa(w) ==> Translate(r, w) == Translate(t, w) && LeafPte(r, w) == LeafPte(t, w)
  {
    forall p | p in r.mem ensures Linked(r, p) { assert Linked(t, p); }
    forall p | p in r.role ensures Hangs(r, p) { assert Hangs(t, p); }
    forall w | InVa(w) ensures Translate(r, w) == Translate(t, w) && LeafPte(r, w) == LeafPte(t, w) {
      SameWalk(t, r, w);
    }
  }

  lemma TakingOk(t: Tables)
    requires Inv(t) && t.pool != []
    ensures Inv(Taking(t)) && t.pool[0] !in t.mem && t.pool[0] !in t.pool[1..]
    ensures forall w :: InVa(w) ==> Translate(Taking(t), w) == Translate(t, w) && LeafPte(Taking(t), w) == LeafPte(t, w)
  {
    PoolHead(t);
    PoolOnly(t, Taking(t));
  }

  lemma GiveBackOk(t: Tables, pa: Ppn)
    requires Inv(t) && pa !in t.mem && pa !in t.pool
    ensures Inv(GiveBack(t, pa))
    ensures forall w :: InVa(w) ==> Translate(GiveBack(t, pa), w) == Translate(t, w)
  {
    PoolOnly(t, GiveBack(t, pa));
  }

  /**
    One page: refused if something is mapped there, else taken from the pool, filled and mapped. `lost`: not
    given back when the mapping fails.
  */
  function Fill(p: Progress, page: Page, lost: bool): (r: Progress)
    requires Inv(p.space.tables)
  {
    var t := p.space.tables;
    if Taken(t, Index(page.va)) then p.(error := Some(Overlap))
    else if t.pool == [] then p.(error := Some(NoMemory))
    else
      TakingOk(t);
      var pa := t.pool[0];
      var (r, ok) := MapUserPage(Taking(t), page.va, PageAddress(pa), page.flags, true);
      var mem := p.space.mem[pa := page.content];
      if ok then p.(space := Space(r, mem), mapped := p.mapped + [Mapped(Index(page.va), pa)])
      else p.(space := Space(if lost then r else GiveBack(r, pa), mem), error := Some(MapFailed))
  }

  /** Taking the first page of the pool and mapping it at `page`, if that is free. */
  ghost predicate Filling(p: Progress, page: Page) {
    && Sound(p.space.tables, p.mapped) && p.error.None? && p.space.tables.pool != []
    && !Taken(p.space.tables, Index(page.va)) && page.va < USER_VA_LIMIT && LeafFlags(page.flags)
  }

  lemma FillMaps(p: Progress, page: Page)
    requires Filling(p, page)
    ensures var t := p.space.tables;
            var (r, ok) := MapUserPage(Taking(t), page.va, PageAddress(t.pool[0]), page.flags, true);
            && Inv(Taking(t)) && Inv(r) && MappedAt(Taking(t), Index(page.va), r, ok, t.pool[0], page.flags)
            && t.pool[0] !in r.pool && t.pool[0] !in r.mem
  {
    TakingOk(p.space.tables);
    MapGrows(Taking(p.space.tables), page.va, p.space.tables.pool[0], page.flags);
  }

  lemma ApartAfter(l: seq<Mapped>, pool: seq<Ppn>, tables: set<Ppn>, pool': seq<Ppn>, tables': set<Ppn>, m: Mapped)
    requires Apart(l, pool, tables) && m.pa in pool && m.pa !in pool' && m.pa !in tables'
    requires (forall p :: p in pool' ==> p in pool) && forall p :: p in tables' ==> p in tables || p in pool
    ensures Apart(l, pool', tables') && Apart(l + [m], pool', tables')
  {
  }

  lemma SpentApart(t: Tables, l: seq<Mapped>, r: Tables, m: Mapped)
    requires Apart(l, t.pool, t.mem.Keys) && t.pool != [] && Spent(Taking(t), r)
    requires m.pa == t.pool[0] && m.pa !in r.pool && m.pa !in r.mem
    ensures Apart(l, r.pool, r.mem.Keys) && Apart(l + [m], r.pool, r.mem.Keys)
  {
    ApartAfter(l, t.pool, t.mem.Keys, r.pool, r.mem.Keys, m);
  }

  lemma SoundAfter(t: Tables, l: seq<Mapped>, r: Tables, v: Va)
    requires Sound(t, l) && t.pool != [] && Inv(r) && Spent(Taking(t), r) && t.pool[0] !in r.pool && t.pool[0] !in r.mem
    ensures Sound(r, l)
    ensures InVa(v) && Way(v) <= r.role.Values ==> Sound(r, l + [Mapped(v, t.pool[0])])
  {
    SpentApart(t, l, r, Mapped(v, t.pool[0]));
    assert Reached(l, r.role.Values);
  }

  lemma SoundBack(t: Tables, l: seq<Mapped>, pa: Ppn)
    requires Sound(t, l) && pa !in t.pool && pa !in t.mem && forall k :: 0 <= k < |l| ==> l[k].pa != pa
    ensures Sound(GiveBack(t, pa), l)
  {
    GiveBackOk(t, pa);
  }

  lemma FillSound(p: Progress, page: Page, lost: bool)
    requires Sound(p.space.tables, p.mapped) && p.error.None? && page.va < USER_VA_LIMIT && LeafFlags(page.flags)
    ensures var f := Fill(p, page, lost); Sound(f.space.tables, f.mapped) && p.mapped <= f.mapped
  {
    var t := p.space.tables;
    if !Taken(t, Index(page.va)) && t.pool != [] {
      FillMaps(p, page);
      var (r, ok) := MapUserPage(Taking(t), page.va, PageAddress(t.pool[0]), page.flags, true);
      SoundAfter(t, p.mapped, r, Index(page.va));
      assert t.pool[0] in t.pool;
      if !ok { SoundBack(r, p.mapped, t.pool[0]); }
    }
  }

  /** Pages one after the other, until one fails. */
  function MapPages(p: Progress, pages: seq<Page>, lost: bool): (r: Progress)
    requires Sound(p.space.tables, p.mapped) && Mappable(pages)
    ensures Sound(r.space.tables, r.mapped) && p.mapped <= r.mapped
    decreases |pages|
  {
    if pages == [] || p.error.Some? then p
    else
      FillSound(p, pages[0], lost);
      MapPages(Fill(p, pages[0], lost), pages[1..], lost)
  }

  lemma {:induction false} MapStep(p: Progress, f: Progress, page: Page, rest: seq<Page>, lost: bool)
    requires Sound(p.space.tables, p.mapped) && p.error.None? && Mappable([page] + rest) && f == Fill(p, page, lost)
    ensures page.va < USER_VA_LIMIT && LeafFlags(page.flags) && Mappable(rest) && Sound(f.space.tables, f.mapped)
    ensures MapPages(p, [page] + rest, lost) == if f.error.Some? then f else MapPages(f, rest, lost)
  {
    assert ([page] + rest)[0] == page && ([page] + rest)[1..] == rest;
    FillSound(p, page, lost);
  }

  lemma {:induction false} MapJoin(p: Progress, a: seq<Page>, b: seq<Page>, lost: bool)
    requires Sound(p.space.tables, p.mapped) && Mappable(a) && Mappable(b)
    ensures Mappable(a + b) && MapPages(p, a + b, lost) == MapPages(MapPages(p, a, lost), b, lost)
    decreases |a|
  {
    if a == [] {
      assert a + b == b;
    } else if p.error.None? {
      assert (a + b)[0] == a[0] && (a + b)[1..] == a[1..] + b;
      FillSound(p, a[0], lost);
      MapJoin(Fill(p, a[0], lost), a[1..], b, lost);
    }
  }

  /** One page is taken back. */
  function UndoOne(t: Tables, m: Mapped): (r: Tables)
    requires Inv(t) && InVa(m.v)
  {
    GiveBack(Unmap4k(t, m.v).0, m.pa)
  }

  lemma UndoSound(t: Tables, l: seq<Mapped>)
    requires Sound(t, l) && l != []
    ensures Sound(UndoOne(t, l[0]), l[1..])
    ensures var r := UndoOne(t, l[0]);
            |r.pool| == |t.pool| + 1 && |r.mem| == |t.mem| && Translate(r, l[0].v) == None && SameBut(t, r, l[0].v)
  {
    var u := Unmap4k(t, l[0].v).0;
    UnmapKeeps(t, l[0].v);
    SoundTail(u, l);
    SoundBack(u, l[1..], l[0].pa);
    GiveBackOk(u, l[0].pa);
    assert u.mem.Keys == t.mem.Keys;
  }

  lemma SoundTail(t: Tables, l: seq<Mapped>)
    requires Sound(t, l) && l != []
    ensures Sound(t, l[1..])
  {
    assert forall k :: 0 <= k < |l[1..]| ==> l[1..][k] == l[k + 1];
  }

  /** `rollback` */
  function Rollback(sp: Space, mapped: seq<Mapped>): (r: Space)
    requires Sound(sp.tables, mapped)
    ensures Inv(r.tables)
    decreases |mapped|
  {
    if mapped == [] then sp
    else
      UndoSound(sp.tables, mapped);
      Rollback(sp.(tables := UndoOne(sp.tables, mapped[0])), mapped[1..])
  }

  lemma RollbackStep(sp: Space, m: Mapped, l: seq<Mapped>, rest: seq<Mapped>)
    requires Sound(sp.tables, l) && l == [m] + rest
    ensures InVa(m.v) && Sound(UndoOne(sp.tables, m), rest)
    ensures Rollback(sp, l) == Rollback(sp.(tables := UndoOne(sp.tables, m)), rest)
  {
    assert l[0] == m && l[1..] == rest;
    UndoSound(sp.tables, l);
  }

  /** `v` is one of the mapped pages. */
  predicate Among(l: seq<Mapped>, v: Va) {
    exists k :: 0 <= k < |l| && l[k].v == v
  }

  /** Rolling back unmaps exactly the given pages and returns as many; the tables stay. */
  lemma {:induction false} RollbackUndoes(sp: Space, mapped: seq<Mapped>, w: Va)
    requires Sound(sp.tables, mapped) && InVa(w)
    ensures var r := Rollback(sp, mapped).tables;
            && |r.pool| == |sp.tables.pool| + |mapped| && |r.mem| == |sp.tables.mem|
            && Translate(r, w) == if Among(mapped, w) then None else Translate(sp.tables, w)
    decreases |mapped|
  {
    if mapped != [] {
      UndoSound(sp.tables, mapped);
      RollbackUndoes(sp.(tables := UndoOne(sp.tables, mapped[0])), mapped[1..], w);
      AmongTail(mapped, w);
    }
  }

  lemma AmongTail(l: seq<Mapped>, w: Va)
    requires l != []
    ensures Among(l, w) <==> l[0].v == w || Among(l[1..], w)
  {
    if k :| 0 <= k < |l| && l[k].v == w {
      if k > 0 { assert l[1..][k - 1].v == w; }
    }
    if k :| 0 <= k < |l[1..]| && l[1..][k].v == w { assert l[k + 1].v == w; }
  }

  // ----- What has been mapped so far -----

  /** The translations are those of `t`, but for the mapped pages, which `t` does not translate. */
  ghost predicate Running(t: Tables, r: Tables, l: seq<Mapped>)
    requires Inv(t) && Inv(r)
  {
    forall w :: InVa(w) ==> if Among(l, w) then Translate(t, w) == None else Translate(r, w) == Translate(t, w)
  }

  lemma AmongLast(l: seq<Mapped>, m: Mapped, w: Va)
    ensures Among(l + [m], w) <==> Among(l, w) || m.v == w
  {
    var r := l + [m];
    if Among(l, w) {
      var k :| 0 <= k < |l| && l[k].v == w;
      assert r[k].v == w;
    }
    assert r[|l|] == m;
  }

  lemma FillRuns(t: Tables, p: Progress, page: Page, lost: bool)
    requires Inv(t) && Sound(p.space.tables, p.mapped) && Running(t, p.space.tables, p.mapped) && p.error.None?
    requires page.va < USER_VA_LIMIT && LeafFlags(page.flags)
    ensures var f := Fill(p, page, lost); Inv(f.space.tables) && Running(t, f.space.tables, f.mapped)
  {
    FillSound(p, page, lost);
    var u, v := p.space.tables, Index(page.va);
    if !Taken(u, v) && u.pool != [] {
      FillMaps(p, page);
      TakingOk(u);
      FreeWay(u, v);
      var (r, ok) := MapUserPage(Taking(u), page.va, PageAddress(u.pool[0]), page.flags, true);
      if ok {
        forall w | InVa(w) ensures Among(p.mapped + [Mapped(v, u.pool[0])], w) <==> Among(p.mapped, w) || v == w {
          AmongLast(p.mapped, Mapped(v, u.pool[0]), w);
        }
      } else {
        GiveBackOk(r, u.pool[0]);
      }
    }
  }

  lemma {:induction false} MapPagesRuns(t: Tables, p: Progress, pages: seq<Page>, lost: bool)
    requires Inv(t) && Sound(p.space.tables, p.mapped) && Running(t, p.space.tables, p.mapped) && Mappable(pages)
    ensures var r := MapPages(p, pages, lost); Running(t, r.space.tables, r.mapped)
    decreases |pages|
  {
    if pages != [] && p.error.None? {
      FillSound(p, pages[0], lost);
      FillRuns(t, p, pages[0], lost);
      MapPagesRuns(t, Fill(p, pages[0], lost), pages[1..], lost);
    }
  }

  /** Rolling back what has been mapped restores every translation. */
  lemma RolledBack(t: Tables, sp: Space, l: seq<Mapped>)
    requires Inv(t) && Sound(sp.tables, l) && Running(t, sp.tables, l)
    ensures SameMeaning(t, Rollback(sp, l).tables)
  {
    forall w | InVa(w) ensures Translate(Rollback(sp, l).tables, w) == Translate(t, w) {
      RollbackUndoes(sp, l, w);
    }
  }

  // ----- What the mapped pages hold -----

  /** The `k`-th page mapped is page `v`, and its translation leads to this content, with these flags. */
  ghost predicate HoldsAt(p: Progress, k: nat, v: Va, content: seq<Byte>, flags: bv10)
    requires Inv(p.space.tables) && InVa(v)
  {
    && k < |p.mapped| && p.mapped[k].v == v && Taken(p.space.tables, v)
    && p.mapped[k].pa in p.space.mem && p.space.mem[p.mapped[k].pa] == content
    && Translate(p.space.tables, v) == Some(Xlat(p.mapped[k].pa, flags | U))
  }

  lemma FillHolds(p: Progress, f: Progress, page: Page, lost: bool, v: Va)
    requires Sound(p.space.tables, p.mapped) && p.error.None? && page.va < USER_VA_LIMIT && LeafFlags(page.flags)
    requires f == Fill(p, page, lost) && f.error.None? && v == Index(page.va)
    ensures Inv(f.space.tables) && |f.mapped| == |p.mapped| + 1 && HoldsAt(f, |p.mapped|, v, page.content, page.flags)
    ensures forall w :: InVa(w) && w != v ==> Translate(f.space.tables, w) == Translate(p.space.tables, w)
    ensures forall w :: InVa(w) && w != v ==> LeafPte(f.space.tables, w) == LeafPte(p.space.tables, w)
  {
    FillMaps(p, page);
    TakingOk(p.space.tables);
  }

  /** Later pages go elsewhere, in both memories. */
  lemma FillKeeps(p: Progress, f: Progress, new': Page, lost: bool, k: nat, v: Va, content: seq<Byte>, flags: bv10)
    requires Sound(p.space.tables, p.mapped) && p.error.None? && new'.va < USER_VA_LIMIT && LeafFlags(new'.flags)
    requires f == Fill(p, new', lost) && f.error.None? && InVa(v) && HoldsAt(p, k, v, content, flags)
    ensures Inv(f.space.tables) && HoldsAt(f, k, v, content, flags)
  {
    FillHolds(p, f, new', lost, Index(new'.va));
    assert p.space.tables.pool[0] in p.space.tables.pool;
  }

  lemma {:induction false} FirstKeeps(p: Progress, pages: seq<Page>, lost: bool, r: Progress, k: nat, v: Va,
          content: seq<Byte>, flags: bv10)
    returns (f: Progress)
    requires Sound(p.space.tables, p.mapped) && p.error.None? && Mappable(pages) && pages != []
    requires InVa(v) && HoldsAt(p, k, v, content, flags) && r == MapPages(p, pages, lost) && r.error.None?
    ensures Sound(f.space.tables, f.mapped) && f.error.None? && Mappable(pages[1..])
    ensures HoldsAt(f, k, v, content, flags) && MapPages(f, pages[1..], lost) == r
  {
    f := Fill(p, pages[0], lost);
    var first, rest := pages[0], pages[1..];
    assert pages == [first] + rest;
    MapStep(p, f, first, rest, lost);
    FillKeeps(p, f, first, lost, k, v, content, flags);
  }

  lemma {:induction false} MapPagesKeeps(p: Progress, pages: seq<Page>, lost: bool, r: Progress, k: nat, v: Va,
          content: seq<Byte>, flags: bv10)
    requires Sound(p.space.tables, p.mapped) && p.error.None? && Mappable(pages)
    requires InVa(v) && HoldsAt(p, k, v, content, flags) && r == MapPages(p, pages, lost) && r.error.None?
    ensures HoldsAt(r, k, v, content, flags)
    decreases |pages|
  {
    if pages != [] {
      var f := FirstKeeps(p, pages, lost, r, k, v, content, flags);
      MapPagesKeeps(f, pages[1..], lost, r, k, v, content, flags);
    }
  }

  lemma {:induction false} FirstStays(p: Progress, f: Progress, first: Page, rest: seq<Page>, lost: bool)
    requires Sound(p.space.tables, p.mapped) && p.error.None? && first.va < USER_VA_LIMIT && LeafFlags(first.flags)
    requires f == Fill(p, first, lost) && f.error.None? && Sound(f.space.tables, f.mapped) && Mappable(rest)
    requires MapPages(f, rest, lost).error.None?
    ensures |f.mapped| == |p.mapped| + 1
    ensures HoldsAt(MapPages(f, rest, lost), |p.mapped|, Index(first.va), first.content, first.flags)
  {
    FillHolds(p, f, first, lost, Index(first.va));
    MapPagesKeeps(f, rest, lost, MapPages(f, rest, lost), |p.mapped|, Index(first.va), first.content, first.flags);
  }

  /** Entry `k` of the mapped pages is `page`. */
  ghost predicate Holds(p: Progress, k: nat, page: Page)
    requires Inv(p.space.tables)
  {
    HoldsAt(p, k, Index(page.va), page.content, page.flags)
  }

  /** The first page is mapped and stays so; `f` is what is left to do. */
  lemma {:induction false} FirstFills(p: Progress, pages: seq<Page>, lost: bool, r: Progress) returns (f: Progress)
    requires Sound(p.space.tables, p.mapped) && p.error.None? && Mappable(pages) && pages != []
    requires r == MapPages(p, pages, lost) && r.error.None?
    ensures Sound(f.space.tables, f.mapped) && f.error.None? && Mappable(pages[1..]) && |f.mapped| == |p.mapped| + 1
    ensures MapPages(f, pages[1..], lost) == r && Holds(r, |p.mapped|, pages[0])
  {
    f := Fill(p, pages[0], lost);
    var first, rest := pages[0], pages[1..];
    assert pages == [first] + rest;
    MapStep(p, f, first, rest, lost);
    FirstStays(p, f, first, rest, lost);
  }

  ghost predicate HoldFrom(r: Progress, n: nat, pages: seq<Page>)
    requires Inv(r.space.tables)
  {
    |r.mapped| == n + |pages| && forall i :: 0 <= i < |pages| ==> Holds(r, n + i, pages[i])
  }

  lemma HoldCons(r: Progress, n: nat, pages: seq<Page>)
    requires Inv(r.space.tables) && pages != [] && Holds(r, n, pages[0]) && HoldFrom(r, n + 1, pages[1..])
    ensures HoldFrom(r, n, pages)
  {
    forall i | 0 <= i < |pages| ensures Holds(r, n + i, pages[i]) {
      if i > 0 { assert Holds(r, n + 1 + (i - 1), pages[1..][i - 1]); }
    }
  }

  /** Without an error, every page is mapped with its content and its flags, in order. */
  lemma {:induction false} MapPagesFills(p: Progress, pages: seq<Page>, lost: bool, r: Progress)
    requires Sound(p.space.tables, p.mapped) && p.error.None? && Mappable(pages)
    requires r == MapPages(p, pages, lost) && r.error.None?
    ensures HoldFrom(r, |p.mapped|, pages)
    decreases |pages|
  {
    if pages != [] {
      var f := FirstFills(p, pages, lost, r);
      MapPagesFills(f, pages[1..], lost, r);
      HoldCons(r, |p.mapped|, pages);
    }
  }

  // ----- Where the pages of a segment are -----

  lemma IndexAligned(a: nat)
    ensures Index(AlignDown(a)) == Index(a)
  {
    var b := AlignDown(a);
    assert b / 0x1000 == a / 0x1000;
    assert a / 0x20_0000 == a / 0x1000 / 512 && b / 0x20_0000 == b / 0x1000 / 512;
    assert a / 0x4000_0000 == a / 0x1000 / 0x4_0000 && b / 0x4000_0000 == b / 0x1000 / 0x4_0000;
  }

  /** Every address in the pages of a segment lies in one of its pages. */
  lemma PageNumber(s: Segment, bytes: seq<Byte>, a: nat) returns (n: nat)
    requires SegmentOk(s, |bytes|) && InPages(s, a)
    ensures n < |SegmentPages(s, bytes)| && SegmentPages(s, bytes)[n].va == AlignDown(a)
    ensures SegmentPages(s, bytes)[n] == PageAt(s, bytes, n)
  {
    n := a / PAGE_SIZE - s.vaddr / PAGE_SIZE;
  }

  /** The pages of segment `i` are a part of all pages. */
  lemma {:induction false} PagesOf(segments: seq<Segment>, bytes: seq<Byte>, i: nat, n: nat) returns (k: nat)
    requires AllOk(segments, |bytes|) && i < |segments| && n < |SegmentPages(segments[i], bytes)|
    ensures k < |AllPages(segments, bytes)| && AllPages(segments, bytes)[k] == SegmentPages(segments[i], bytes)[n]
    decreases |segments|
  {
    if i == 0 {
      k := n;
    } else {
      k := PagesOf(segments[1..], bytes, i - 1, n);
      k := k + |SegmentPages(segments[0], bytes)|;
    }
  }
}
