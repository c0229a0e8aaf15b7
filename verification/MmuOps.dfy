/** The page-table operations and what each does to the translation of every virtual page. */
module MmuOps {
  import opened Common
  import opened MmuModel

  // ----- Walking down, making tables -----

  /** `ensure_table` and `ensure_table_user`: the table below entry `i` of `p`, made if the entry is empty. */
  function EnsureTable(t: Tables, p: Ppn, i: nat): (r: (Tables, Option<Ppn>))
    requires p in t.mem && p in t.role && !t.role[p].Low? && i < |t.mem[p]|
  {
    var e := t.mem[p][i];
    if Valid(e) then (if IsLeaf(e) then (t, None) else (t, Some(e.ppn)))
    else if t.pool == [] then (t, None)
    else (Attach(t, p, i, Zeroed()), Some(t.pool[0]))
  }

  lemma EnsureTableOk(t: Tables, p: Ppn, i: nat)
    requires Inv(t) && p in t.role && !t.role[p].Low? && i < ENTRIES
    ensures p in t.mem && |t.mem[p]| == ENTRIES
    ensures var (r, c) := EnsureTable(t, p, i);
            && Inv(r) && SameMeaning(t, r) && r.root == t.root
            && (c.None? ==> r == t)
            && (c.Some? ==> c.value in r.role && r.role[c.value] == Child(t.role[p], i))
            && (c.None? <==> IsLeaf(t.mem[p][i]) || (!Valid(t.mem[p][i]) && t.pool == []))
            && r.pool == if c.Some? && !Valid(t.mem[p][i]) then t.pool[1..] else t.pool
  {
    assert Linked(t, p);
    var e := t.mem[p][i];
    if !Valid(e) && t.pool != [] {
      AttachInv(t, p, i, Zeroed());
      EmptyTable(t, p, i);
    }
  }

  /** A new empty table below an empty entry translates nothing, as before. */
  lemma EmptyTable(t: Tables, p: Ppn, i: nat)
    requires Inv(t) && p in t.mem && |t.mem[p]| == ENTRIES && i < ENTRIES && !t.role[p].Low? && !Valid(t.mem[p][i])
    requires t.pool != []
    requires Inv(Attach(t, p, i, Zeroed()))
    ensures SameMeaning(t, Attach(t, p, i, Zeroed()))
  {
    var r := Attach(t, p, i, Zeroed());
    forall v | InVa(v) ensures Translate(r, v) == Translate(t, v) {
      if !Through(t.role[p], i, v) {
        AttachElsewhere(t, p, i, Zeroed(), v);
      } else if t.role[p].Mid? {
        MidPath(t, p, v);
        AttachLow(t, p, Zeroed(), v);
      } else {
        EmptyMid(t, i, v);
      }
    }
  }

  lemma EmptyMid(t: Tables, i: nat, v: Va)
    requires Inv(t) && t.root in t.mem && |t.mem[t.root]| == ENTRIES && i < ENTRIES && InVa(v) && v.l2 == i
    requires !Valid(t.mem[t.root][i]) && t.pool != [] && Inv(Attach(t, t.root, i, Zeroed()))
    ensures Translate(Attach(t, t.root, i, Zeroed()), v) == None == Translate(t, v)
  {
    PoolHead(t);
    MidPath(Attach(t, t.root, i, Zeroed()), t.pool[0], v);
  }

  /** Both levels: the level-0 table for `v`. */
  function Descend(t: Tables, v: Va): (r: (Tables, Option<Ppn>))
    requires Inv(t) && InVa(v)
  {
    EnsureTableOk(t, t.root, v.l2);
    var (t1, m) := EnsureTable(t, t.root, v.l2);
    if m.None? then (t1, None)
    else
      EnsureTableOk(t1, m.value, v.l1);
      EnsureTable(t1, m.value, v.l1)
  }

  /** A superpage is in the way. */
  predicate Super(t: Tables, v: Va)
    requires Inv(t) && InVa(v)
  {
    IsLeaf(Entry2(t, v)) || (IsTable(Entry2(t, v)) && IsLeaf(Entry1(t, v)))
  }

  /** How many tables are missing on the way to `v`. */
  function Missing(t: Tables, v: Va): (n: nat)
    requires Inv(t) && InVa(v) && !Super(t, v)
  {
    if !Valid(Entry2(t, v)) then 2 else if !Valid(Entry1(t, v)) then 1 else 0
  }

  lemma DescendOk(t: Tables, v: Va)
    requires Inv(t) && InVa(v)
    ensures var (r, q) := Descend(t, v);
            && Inv(r) && SameMeaning(t, r) && r.root == t.root
            && (q.Some? ==> q.value in r.role && r.role[q.value] == Low(v.l2, v.l1))
            && (q.Some? <==> !Super(t, v) && Missing(t, v) <= |t.pool|)
            && (q.Some? && Missing(t, v) == 0 ==> r == t)
  {
    assert Linked(t, t.root);
    EnsureTableOk(t, t.root, v.l2);
    var (t1, m) := EnsureTable(t, t.root, v.l2);
    if m.Some? {
      EnsureTableOk(t1, m.value, v.l1);
      MidPath(t1, m.value, v);
      if !Valid(Entry2(t, v)) {
        NewMidEmpty(t, v);
      }
    }
  }

  lemma NewMidEmpty(t: Tables, v: Va)
    requires Inv(t) && InVa(v) && !Valid(Entry2(t, v)) && t.pool != []
    ensures t.root in t.mem && |t.mem[t.root]| == ENTRIES
    ensures Attach(t, t.root, v.l2, Zeroed()).mem[t.pool[0]] == Zeroed()
  {
    assert Linked(t, t.root);
    PoolHead(t);
  }

  // ----- Mapping and unmapping one page -----

  /** `map_4k` */
  function Map4k(t: Tables, v: Va, ppn: Ppn, flags: bv10): (r: (Tables, bool))
    requires Inv(t) && InVa(v)
  {
    DescendOk(t, v);
    var (t1, q) := Descend(t, v);
    if q.None? then (t1, false)
    else
      LowPath(t1, q.value, v);
      (SetEntry(t1, q.value, v.l0, Pte(ppn, flags)), true)
  }

  /** What was mapped at `v` is replaced, nothing else changes; it fails exactly below a superpage or out of memory. */
  lemma Map4kOk(t: Tables, v: Va, ppn: Ppn, flags: bv10)
    requires Inv(t) && InVa(v)
    ensures var (r, ok) := Map4k(t, v, ppn, flags);
            && Inv(r) && (ok <==> !Super(t, v) && Missing(t, v) <= |t.pool|)
            && (ok ==> Translate(r, v) == OfEntry0(Pte(ppn, flags)) && SameBut(t, r, v))
            && (!ok ==> SameMeaning(t, r))
            && (ok && Missing(t, v) == 0 ==> r.pool == t.pool)
  {
    DescendOk(t, v);
    var (t1, q) := Descend(t, v);
    if q.Some? {
      SetLow(t1, q.value, Pte(ppn, flags), v);
    }
  }

  const USER_VA_LIMIT := 0x40_0000_0000

  /** The three indices of a virtual address. */
  function Index(vaddr: nat): (v: Va)
    ensures InVa(v)
  {
    Va((vaddr / 0x4000_0000) % 512, (vaddr / 0x20_0000) % 512, (vaddr / 0x1000) % 512)
  }

  /** Below the limit of Sv39 the indices determine the page. */
  lemma IndexInjective(a: nat, b: nat)
    requires a < 0x80_0000_0000 && b < 0x80_0000_0000 && Index(a) == Index(b)
    ensures a / 0x1000 == b / 0x1000
  {
    IndexIs(a);
    IndexIs(b);
  }

  lemma IndexIs(a: nat)
    requires a < 0x80_0000_0000
    ensures a / 0x1000 == Index(a).l2 * 0x4_0000 + Index(a).l1 * 512 + Index(a).l0
  {
    var n := a / 0x1000;
    assert a / 0x20_0000 == n / 512 && a / 0x4000_0000 == n / 512 / 512;
    assert n / 512 / 512 < 512;
  }

  function PpnOf(paddr: nat): (n: Ppn) {
    (paddr / 0x1000) % PPN_LIMIT
  }

  /** `map_user_page`; `managed` says whether the page belongs to the allocator. */
  function MapUserPage(t: Tables, vaddr: nat, paddr: nat, flags: bv10, managed: bool): (r: (Tables, bool))
    requires Inv(t)
  {
    if vaddr >= USER_VA_LIMIT || paddr % 0x1000 != 0 || !managed then (t, false)
    else
      var v := Index(vaddr);
      DescendOk(t, v);
      var (t1, q) := Descend(t, v);
      if q.None? then (t1, false)
      else
        LowPath(t1, q.value, v);
        if Valid(t1.mem[q.value][v.l0]) then (t1, false)
        else (SetEntry(t1, q.value, v.l0, Pte(PpnOf(paddr), flags | U)), true)
  }

  predicate LeafFlags(flags: bv10) {
    flags & V != 0 && flags & R != 0
  }

  /**
    Success adds exactly one page, where nothing was mapped before; failure changes no translation. It
    succeeds exactly when the arguments are acceptable, no superpage and no valid entry is in the way,
    and there is memory for the missing tables.
  */
  lemma MapUserPageOk(t: Tables, vaddr: nat, paddr: nat, flags: bv10, managed: bool)
    requires Inv(t)
    ensures var v := Index(vaddr);
            var (r, ok) := MapUserPage(t, vaddr, paddr, flags, managed);
            && Inv(r)
            && (ok <==> vaddr < USER_VA_LIMIT && paddr % 0x1000 == 0 && managed && !Super(t, v)
                        && Missing(t, v) <= |t.pool| && !Valid(LeafPte(t, v)))
            && (ok ==> Translate(t, v) == None && Translate(r, v) == OfEntry0(Pte(PpnOf(paddr), flags | U))
                       && SameBut(t, r, v))
            && (ok && LeafFlags(flags) ==> Translate(r, v) == Some(Xlat(PpnOf(paddr), flags | U)))
            && (!ok ==> SameMeaning(t, r))
  {
    var v := Index(vaddr);
    if vaddr < USER_VA_LIMIT && paddr % 0x1000 == 0 && managed {
      DescendOk(t, v);
      var (t1, q) := Descend(t, v);
      if q.Some? {
        LowPath(t1, q.value, v);
        assert Entry0(t1, v) == t1.mem[q.value][v.l0];
        DescendLeaf(t, v);
        SetLow(t1, q.value, Pte(PpnOf(paddr), flags | U), v);
        if LeafFlags(flags) { UserLeaf(PpnOf(paddr), flags); }
      }
    }
  }

  lemma UserLeaf(n: Ppn, flags: bv10)
    requires LeafFlags(flags)
    ensures OfEntry0(Pte(n, flags | U)) == Some(Xlat(n, flags | U))
  {
    assert (flags | U) & V != 0 && (flags | U) & R != 0;
    assert (flags | U) & (R | W | X) != 0;
  }

  /** Making the tables does not change whether a valid entry ends the walk. */
  lemma DescendLeaf(t: Tables, v: Va)
    requires Inv(t) && InVa(v) && Descend(t, v).1.Some? && Inv(Descend(t, v).0)
    requires IsTable(Entry2(Descend(t, v).0, v)) && IsTable(Entry1(Descend(t, v).0, v))
    ensures Valid(Entry0(Descend(t, v).0, v)) <==> Valid(LeafPte(t, v))
  {
    DescendOk(t, v);
    if Missing(t, v) > 0 {
      NewLowEmpty(t, v);
    }
  }

  lemma NewLowEmpty(t: Tables, v: Va)
    requires Inv(t) && InVa(v) && Descend(t, v).1.Some? && !Super(t, v) && Missing(t, v) > 0
    ensures var r := Descend(t, v).0;
            Inv(r) && IsTable(Entry2(r, v)) && IsTable(Entry1(r, v)) && Entry0(r, v) == EMPTY
  {
    DescendOk(t, v);
    assert Linked(t, t.root);
    EnsureTableOk(t, t.root, v.l2);
    var (t1, m) := EnsureTable(t, t.root, v.l2);
    EnsureTableOk(t1, m.value, v.l1);
    MidPath(t1, m.value, v);
    if !Valid(Entry2(t, v)) { NewMidEmpty(t, v); }
    assert !Valid(Entry1(t1, v)) && t1.pool != [];
    AttachInv(t1, m.value, v.l1, Zeroed());
    AttachLow(t1, m.value, Zeroed(), v);
  }

  /** `unmap_4k` */
  function Unmap4k(t: Tables, v: Va): (r: (Tables, bool))
    requires Inv(t) && InVa(v)
  {
    if LeafPte(t, v) == EMPTY then (t, true)
    else
      DescendOk(t, v);
      var (t1, q) := Descend(t, v);
      if q.None? then (t1, false)
      else
        LowPath(t1, q.value, v);
        (SetEntry(t1, q.value, v.l0, EMPTY), true)
  }

  /** Success removes exactly one page and allocates nothing; it fails, changing nothing, exactly inside a superpage. */
  lemma Unmap4kOk(t: Tables, v: Va)
    requires Inv(t) && InVa(v)
    ensures var (r, ok) := Unmap4k(t, v);
            && Inv(r) && r.pool == t.pool && (ok <==> !Super(t, v))
            && (ok ==> Translate(r, v) == None && SameBut(t, r, v))
            && (!ok ==> r == t)
  {
    Path(t, v);
    if LeafPte(t, v) != EMPTY {
      DescendOk(t, v);
      SuperDescend(t, v);
      if !Super(t, v) {
        var q := Descend(t, v).1;
        SetLow(t, q.value, EMPTY, v);
      }
    }
  }

  lemma SuperDescend(t: Tables, v: Va)
    requires Inv(t) && InVa(v) && LeafPte(t, v) != EMPTY
    ensures Super(t, v) ==> Descend(t, v) == (t, None)
    ensures !Super(t, v) ==> Missing(t, v) == 0
  {
    assert Linked(t, t.root);
    EnsureTableOk(t, t.root, v.l2);
    if IsTable(Entry2(t, v)) {
      EnsureTableOk(t, Entry2(t, v).ppn, v.l1);
    }
  }
}
