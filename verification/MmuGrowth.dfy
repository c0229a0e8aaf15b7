/** Which tables an address space has, and what making the missing ones takes from the page allocator. */
module MmuGrowth {
  import opened Common
  import opened MmuModel
  import opened MmuOps

  /** The tables on the way to a page. */
  function Way(v: Va): (r: set<Role>) {
    {Mid(v.l2), Low(v.l2, v.l1)}
  }

  /** `is_mapped` */
  predicate Taken(t: Tables, v: Va)
    requires Inv(t) && InVa(v)
  {
    Valid(LeafPte(t, v))
  }

  lemma MidIff(t: Tables, v: Va)
    requires Inv(t) && InVa(v)
    ensures IsTable(Entry2(t, v)) <==> Mid(v.l2) in t.role.Values
  {
    Path(t, v);
    if Mid(v.l2) in t.role.Values {
      var m :| m in t.role && t.role[m] == Mid(v.l2);
      MidPath(t, m, v);
    }
  }

  lemma LowIff(t: Tables, v: Va)
    requires Inv(t) && InVa(v)
    ensures IsTable(Entry2(t, v)) && IsTable(Entry1(t, v)) <==> Low(v.l2, v.l1) in t.role.Values
  {
    Path(t, v);
    if Low(v.l2, v.l1) in t.role.Values {
      var q :| q in t.role && t.role[q] == Low(v.l2, v.l1);
      LowPath(t, q, v);
    }
  }

  /** The tables that are missing, counted by the walk, are those of the way that do not exist. */
  lemma MissingIs(t: Tables, v: Va)
    requires Inv(t) && InVa(v) && !Super(t, v)
    ensures Missing(t, v) == |Way(v) - t.role.Values|
  {
    MidIff(t, v);
    LowIff(t, v);
    var m, l := Mid(v.l2), Low(v.l2, v.l1);
    var rest := Way(v) - t.role.Values;
    if m !in t.role.Values {
      assert rest == {m, l};
    } else if l !in t.role.Values {
      assert rest == {l};
    } else {
      assert rest == {};
    }
  }

  /** Pages of the pool may have become tables. */
  ghost predicate Spent(t: Tables, r: Tables) {
    && |r.pool| + |r.mem| == |t.pool| + |t.mem|
    && (forall p :: p in r.pool ==> p in t.pool)
    && (forall p :: p in r.mem ==> p in t.mem || p in t.pool)
    && t.role.Values <= r.role.Values
  }

  /** And the walks end as before. */
  ghost predicate Grown(t: Tables, r: Tables)
    requires Inv(t) && Inv(r)
  {
    Spent(t, r) && forall w :: InVa(w) ==> LeafPte(r, w) == LeafPte(t, w)
  }

  lemma NewTableLeaves(t: Tables, p: Ppn, i: nat, w: Va)
    requires Inv(t) && p in t.mem && |t.mem[p]| == ENTRIES && i < ENTRIES && !t.role[p].Low? && !Valid(t.mem[p][i])
    requires t.pool != [] && Inv(Attach(t, p, i, Zeroed())) && InVa(w)
    ensures LeafPte(Attach(t, p, i, Zeroed()), w) == LeafPte(t, w)
  {
    var r := Attach(t, p, i, Zeroed());
    if !Through(t.role[p], i, w) {
      AttachElsewhere(t, p, i, Zeroed(), w);
    } else if t.role[p].Mid? {
      MidPath(t, p, w);
      AttachLow(t, p, Zeroed(), w);
    } else {
      PoolHead(t);
      MidPath(r, t.pool[0], w);
    }
  }

  /** A table that is made is one page of the pool, in one new place. */
  lemma EnsureGrows(t: Tables, p: Ppn, i: nat)
    requires Inv(t) && p in t.role && !t.role[p].Low? && i < ENTRIES
    ensures p in t.mem && |t.mem[p]| == ENTRIES
    ensures var r := EnsureTable(t, p, i).0;
            && Inv(r) && Grown(t, r)
            && (!Valid(t.mem[p][i]) && t.pool != [] ==> r.role.Values == t.role.Values + {Child(t.role[p], i)})
            && (Valid(t.mem[p][i]) || t.pool == [] ==> r == t)
  {
    EnsureTableOk(t, p, i);
    assert Linked(t, p);
    if !Valid(t.mem[p][i]) && t.pool != [] {
      var r := Attach(t, p, i, Zeroed());
      PoolHead(t);
      var q := t.pool[0];
      assert r.mem.Keys == t.mem.Keys + {q};
      forall w | InVa(w) ensures LeafPte(r, w) == LeafPte(t, w) {
        NewTableLeaves(t, p, i, w);
      }
      NewPlace(t.role, q, Child(t.role[p], i));
    }
  }

  lemma NewPlace(m: map<Ppn, Role>, q: Ppn, c: Role)
    requires q !in m
    ensures m[q := c].Values == m.Values + {c}
  {
    var r := m[q := c];
    assert q in r && r[q] == c;
    forall x | x in m.Values ensures x in r.Values {
      var p :| p in m && m[p] == x;
      assert p in r && r[p] == x;
    }
  }

  lemma GrownTwice(t: Tables, s: Tables, r: Tables)
    requires Inv(t) && Inv(s) && Inv(r) && Grown(t, s) && Grown(s, r)
    ensures Grown(t, r)
  {
  }

  /** What walking down does: the missing tables are made, or the pool is used up. */
  ghost predicate Made(t: Tables, v: Va, r: Tables, q: Option<Ppn>)
    requires Inv(t) && Inv(r)
  {
    && Grown(t, r)
    && (q.Some? <==> |Way(v) - t.role.Values| <= |t.pool|)
    && (q.Some? ==> r.role.Values == t.role.Values + Way(v) && |r.pool| == |t.pool| - |Way(v) - t.role.Values|)
    && (q.None? ==> r.pool == [])
  }

  lemma LowMissing(t: Tables, v: Va)
    requires Inv(t) && InVa(v) && IsTable(Entry2(t, v)) && !Valid(Entry1(t, v))
    ensures Inv(Descend(t, v).0) && Made(t, v, Descend(t, v).0, Descend(t, v).1)
  {
    DescendOk(t, v);
    MissingIs(t, v);
    MidIff(t, v);
    Path(t, v);
    EnsureTableOk(t, t.root, v.l2);
    EnsureGrows(t, Entry2(t, v).ppn, v.l1);
    EnsureTableOk(t, Entry2(t, v).ppn, v.l1);
  }

  /** With the level-1 table made, the walk down is the same as from there. */
  lemma FirstMade(t: Tables, v: Va, t1: Tables)
    requires Inv(t) && InVa(v) && !Valid(Entry2(t, v)) && t.pool != []
    requires t.root in t.mem && |t.mem[t.root]| == ENTRIES && t.role[t.root].Root?
    requires t1 == Attach(t, t.root, v.l2, Zeroed())
    ensures Inv(t1) && Grown(t, t1) && t1.role.Values == t.role.Values + {Mid(v.l2)} && |t1.pool| == |t.pool| - 1
    ensures IsTable(Entry2(t1, v)) && !Valid(Entry1(t1, v)) && Descend(t1, v) == Descend(t, v)
  {
    EnsureTableOk(t, t.root, v.l2);
    EnsureGrows(t, t.root, v.l2);
    NewMidEmpty(t, v);
    MidPath(t1, t.pool[0], v);
  }

  lemma BothNew(places: set<Role>, v: Va)
    requires Mid(v.l2) !in places && Low(v.l2, v.l1) !in places
    ensures |Way(v) - places| == 2 && |Way(v) - (places + {Mid(v.l2)})| == 1
    ensures places + {Mid(v.l2)} + Way(v) == places + Way(v)
  {
    assert Way(v) - places == {Mid(v.l2), Low(v.l2, v.l1)};
    assert Way(v) - (places + {Mid(v.l2)}) == {Low(v.l2, v.l1)};
  }

  lemma MadeTwice(t: Tables, v: Va, t1: Tables, r: Tables, q: Option<Ppn>)
    requires Inv(t) && Inv(t1) && Inv(r) && Grown(t, t1) && Made(t1, v, r, q)
    requires Mid(v.l2) !in t.role.Values && Low(v.l2, v.l1) !in t.role.Values
    requires t1.role.Values == t.role.Values + {Mid(v.l2)} && |t1.pool| == |t.pool| - 1
    ensures Made(t, v, r, q)
  {
    GrownTwice(t, t1, r);
    BothNew(t.role.Values, v);
  }

  lemma BothMissing(t: Tables, v: Va)
    requires Inv(t) && InVa(v) && !Valid(Entry2(t, v)) && t.pool != []
    ensures Inv(Descend(t, v).0) && Made(t, v, Descend(t, v).0, Descend(t, v).1)
  {
    MidIff(t, v);
    LowIff(t, v);
    assert Linked(t, t.root);
    var t1 := Attach(t, t.root, v.l2, Zeroed());
    FirstMade(t, v, t1);
    LowMissing(t1, v);
    MadeTwice(t, v, t1, Descend(t, v).0, Descend(t, v).1);
  }

  /** Walking down makes exactly the missing tables, or uses up the pool. */
  lemma DescendGrows(t: Tables, v: Va)
    requires Inv(t) && InVa(v) && !Super(t, v)
    ensures Inv(Descend(t, v).0) && Made(t, v, Descend(t, v).0, Descend(t, v).1)
  {
    if !Valid(Entry2(t, v)) {
      if t.pool == [] { NothingMade(t, v); } else { BothMissing(t, v); }
    } else if !Valid(Entry1(t, v)) {
      LowMissing(t, v);
    } else {
      NothingMissing(t, v);
    }
  }

  lemma NothingMade(t: Tables, v: Va)
    requires Inv(t) && InVa(v) && !Valid(Entry2(t, v)) && t.pool == []
    ensures Inv(Descend(t, v).0) && Made(t, v, Descend(t, v).0, Descend(t, v).1)
  {
    DescendOk(t, v);
    MissingIs(t, v);
    EnsureTableOk(t, t.root, v.l2);
  }

  lemma NothingMissing(t: Tables, v: Va)
    requires Inv(t) && InVa(v) && !Super(t, v) && Missing(t, v) == 0
    ensures Inv(Descend(t, v).0) && Made(t, v, Descend(t, v).0, Descend(t, v).1)
  {
    DescendOk(t, v);
    MissingIs(t, v);
    assert Way(v) - t.role.Values == {};
    assert t.role.Values == t.role.Values + Way(v);
  }

  // ----- Mapping and unmapping -----

  /** Only the walk for `v` may end elsewhere. */
  ghost predicate OthersEnd(t: Tables, r: Tables, v: Va)
    requires Inv(t) && Inv(r)
  {
    forall w :: InVa(w) && w != v ==> Translate(r, w) == Translate(t, w) && LeafPte(r, w) == LeafPte(t, w)
  }

  lemma SetLowLeaves(t: Tables, q: Ppn, e: Pte, v: Va)
    requires Inv(t) && InVa(v) && q in t.role && t.role[q] == Low(v.l2, v.l1)
    ensures q in t.mem && |t.mem[q]| == ENTRIES && Inv(SetEntry(t, q, v.l0, e))
    ensures var r := SetEntry(t, q, v.l0, e);
            Translate(r, v) == OfEntry0(e) && LeafPte(r, v) == (if Valid(e) then e else EMPTY) && OthersEnd(t, r, v)
  {
    LowPath(t, q, v);
    SetLow(t, q, e, v);
    var r := SetEntry(t, q, v.l0, e);
    LowPath(r, q, v);
    forall w | InVa(w) && w != v ensures Translate(r, w) == Translate(t, w) && LeafPte(r, w) == LeafPte(t, w) {
      SetEntryElsewhere(t, q, v.l0, e, w);
    }
  }

  /** Mapping page `v` made the tables it needed; `ok` or not. */
  ghost predicate MappedAt(t: Tables, v: Va, r: Tables, ok: bool, ppn: Ppn, flags: bv10)
    requires Inv(t) && Inv(r) && InVa(v)
  {
    && Spent(t, r)
    && (ok <==> |Way(v) - t.role.Values| <= |t.pool|)
    && (ok ==> r.role.Values == t.role.Values + Way(v) && |r.pool| == |t.pool| - |Way(v) - t.role.Values|)
    && (ok ==> Translate(r, v) == Some(Xlat(ppn, flags | U)) && Taken(r, v) && OthersEnd(t, r, v))
    && (!ok ==> r.pool == [] && SameMeaning(t, r))
  }

  lemma FreeWay(t: Tables, v: Va)
    requires Inv(t) && InVa(v) && !Taken(t, v)
    ensures !Super(t, v) && Translate(t, v) == None
  {
  }

  function PageAddress(ppn: Ppn): (a: nat)
    ensures a % 0x1000 == 0 && PpnOf(a) == ppn
  {
    0x1000 * (ppn as nat)
  }

  lemma SetSpent(t: Tables, r: Tables, q: Ppn, i: nat, e: Pte)
    requires Spent(t, r) && q in r.mem && i < |r.mem[q]|
    ensures Spent(t, SetEntry(r, q, i, e))
  {
    assert SetEntry(r, q, i, e).mem.Keys == r.mem.Keys;
  }

  /** `map_user_page` at a free page below the limit: it succeeds exactly when the pool has the missing tables. */
  lemma MapGrows(t: Tables, vaddr: nat, ppn: Ppn, flags: bv10)
    requires Inv(t) && vaddr < USER_VA_LIMIT && !Taken(t, Index(vaddr)) && LeafFlags(flags)
    ensures var (r, ok) := MapUserPage(t, vaddr, PageAddress(ppn), flags, true);
            Inv(r) && MappedAt(t, Index(vaddr), r, ok, ppn, flags)
  {
    var v := Index(vaddr);
    FreeWay(t, v);
    MapUserPageOk(t, vaddr, PageAddress(ppn), flags, true);
    MissingIs(t, v);
    DescendGrows(t, v);
    DescendOk(t, v);
    var (t1, q) := Descend(t, v);
    if q.Some? {
      UserLeaf(ppn, flags);
      SetLowLeaves(t1, q.value, Pte(ppn, flags | U), v);
      SetSpent(t, t1, q.value, v.l0, Pte(ppn, flags | U));
    }
  }

  /** `unmap_4k` where the tables exist makes none. */
  lemma UnmapKeeps(t: Tables, v: Va)
    requires Inv(t) && InVa(v) && Way(v) <= t.role.Values
    ensures var r := Unmap4k(t, v).0;
            && Inv(r) && r.role == t.role && r.pool == t.pool && r.mem.Keys == t.mem.Keys
            && Translate(r, v) == None && OthersEnd(t, r, v)
  {
    MidIff(t, v);
    LowIff(t, v);
    Unmap4kOk(t, v);
    if LeafPte(t, v) != EMPTY {
      DescendOk(t, v);
      SetLowLeaves(t, Descend(t, v).1.value, EMPTY, v);
    }
  }
}
