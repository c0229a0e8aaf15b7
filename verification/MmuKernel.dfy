/** Splitting superpages, and the guard page of a kernel stack that is taken out and put back. */
module MmuKernel {
  import opened Common
  import opened MmuModel
  import opened MmuOps

  /** The 512 leaves that a superpage entry is split into. */
  function Pieces(e: Pte): (s: seq<Pte>)
    ensures |s| == ENTRIES && forall i :: 0 <= i < ENTRIES ==> s[i] == Pte((e.ppn + i) % PPN_LIMIT, e.flags)
  {
    seq(ENTRIES, i requires 0 <= i < ENTRIES => Pte((e.ppn + i) % PPN_LIMIT, e.flags))
  }

  /** `split_superpage` */
  function SplitSuperpage(t: Tables, v: Va): (r: (Tables, bool))
    requires Inv(t) && InVa(v)
  {
    EnsureTableOk(t, t.root, v.l2);
    var (t1, m) := EnsureTable(t, t.root, v.l2);
    if m.None? then (t1, false)
    else
      assert Linked(t1, m.value);
      var e := t1.mem[m.value][v.l1];
      if !Valid(e) then (t1, false)
      else if IsTable(e) then (t1, true)
      else if t1.pool == [] then (t1, false)
      else (Attach(t1, m.value, v.l1, Pieces(e)), true)
  }

  /** A superpage that the hardware rejects whatever its alignment. */
  predicate Rejected(e: Pte) {
    e.flags & R == 0 && e.flags & W != 0
  }

  lemma PieceTranslates(e: Pte, i: nat)
    requires IsLeaf(e) && i < ENTRIES
    ensures OfEntry0(Pieces(e)[i]) == if Rejected(e) then None else Some(Xlat((e.ppn + i) % PPN_LIMIT, e.flags))
    ensures e.ppn % 512 == 0 ==> OfEntry0(Pieces(e)[i]) == ByLeaf(e, 512, i)
  {
  }

  /** The superpage case of the split. */
  lemma SplitLeaf(t: Tables, m: Ppn, v: Va)
    requires Inv(t) && InVa(v) && m in t.role && t.role[m] == Mid(v.l2) && m in t.mem && |t.mem[m]| == ENTRIES
    requires IsLeaf(t.mem[m][v.l1]) && t.pool != []
    ensures var e, r := t.mem[m][v.l1], Attach(t, m, v.l1, Pieces(t.mem[m][v.l1]));
            && Inv(r) && IsTable(Entry2(r, v)) && IsTable(Entry1(r, v))
            && (SameMeaning(t, r) <==> e.ppn % 512 == 0 || Rejected(e))
            && forall w :: InVa(w) && !(w.l2 == v.l2 && w.l1 == v.l1) ==> Translate(r, w) == Translate(t, w)
  {
    var e := t.mem[m][v.l1];
    var r := Attach(t, m, v.l1, Pieces(e));
    AttachInv(t, m, v.l1, Pieces(e));
    AttachLow(t, m, Pieces(e), v);
    forall w | InVa(w) && !(w.l2 == v.l2 && w.l1 == v.l1) ensures Translate(r, w) == Translate(t, w) {
      AttachElsewhere(t, m, v.l1, Pieces(e), w);
    }
    forall w | InVa(w) && w.l2 == v.l2 && w.l1 == v.l1
      ensures Translate(r, w) == OfEntry0(Pieces(e)[w.l0]) && Translate(t, w) == ByLeaf(e, 512, w.l0)
    {
      AttachLow(t, m, Pieces(e), w);
      MidPath(t, m, w);
      PieceTranslates(e, w.l0);
    }
    forall i | 0 <= i < ENTRIES
      ensures OfEntry0(Pieces(e)[i]) == (if Rejected(e) then None else Some(Xlat((e.ppn + i) % PPN_LIMIT, e.flags)))
      ensures e.ppn % 512 == 0 ==> OfEntry0(Pieces(e)[i]) == ByLeaf(e, 512, i)
    {
      PieceTranslates(e, i);
    }
    var first := Va(v.l2, v.l1, 0);
    assert Translate(r, first) == OfEntry0(Pieces(e)[0]) && Translate(t, first) == ByLeaf(e, 512, 0);
  }

  /**
    A split leaves the physical page and the flags of every virtual page unchanged, exactly when the superpage
    is aligned as Sv39 wants it (or is one the hardware rejects); a failed split changes no translation.
    It succeeds exactly on a level-1 table or, given a free page, on a level-1 superpage.
  */
  lemma SplitSuperpageOk(t: Tables, v: Va)
    requires Inv(t) && InVa(v)
    ensures var (r, ok) := SplitSuperpage(t, v);
            && Inv(r)
            && (ok <==> IsTable(Entry2(t, v)) && (IsTable(Entry1(t, v)) || (IsLeaf(Entry1(t, v)) && t.pool != [])))
            && (!ok ==> SameMeaning(t, r))
            && (ok ==> !Super(r, v) && Missing(r, v) == 0)
            && (ok && IsTable(Entry1(t, v)) ==> r == t)
            && (ok && IsLeaf(Entry1(t, v)) ==>
                 (SameMeaning(t, r) <==> Entry1(t, v).ppn % 512 == 0 || Rejected(Entry1(t, v))))
  {
    assert Linked(t, t.root);
    EnsureTableOk(t, t.root, v.l2);
    var (t1, m) := EnsureTable(t, t.root, v.l2);
    if m.Some? {
      assert Linked(t1, m.value);
      MidPath(t1, m.value, v);
      if !Valid(Entry2(t, v)) {
        NewMidEmpty(t, v);
      } else if IsLeaf(Entry1(t, v)) && t.pool != [] {
        SplitLeaf(t, m.value, v);
      }
    }
  }

  /** A superpage entry whose page number is odd: the hardware faults on it, the pieces it is split into translate. */
  lemma MisalignedSplit(t: Tables, v: Va)
    requires t == Tables(1, map[1 := Zeroed()[0 := Pte(2, V)], 2 := Zeroed()[0 := Pte(1, LEAF_RW)]],
      map[1 := Root, 2 := Mid(0)], [3])
    requires v == Va(0, 0, 0)
    ensures Inv(t) && SplitSuperpage(t, v).1 && Inv(SplitSuperpage(t, v).0) && !SameMeaning(t, SplitSuperpage(t, v).0)
  {
    assert IsTable(Pte(2, V)) && IsLeaf(Pte(1, LEAF_RW)) && !IsTable(Pte(1, LEAF_RW)) && !IsTable(EMPTY);
    assert Linked(t, 1) && Linked(t, 2) && Hangs(t, 1) && Hangs(t, 2);
    assert !Rejected(Pte(1, LEAF_RW));
    SplitSuperpageOk(t, v);
  }

  /** Splitting twice is splitting once. */
  lemma SplitIdempotent(t: Tables, v: Va)
    requires Inv(t) && InVa(v) && SplitSuperpage(t, v).1
    ensures Inv(SplitSuperpage(t, v).0) && SplitSuperpage(SplitSuperpage(t, v).0, v) == SplitSuperpage(t, v)
  {
    SplitSuperpageOk(t, v);
    SplitSuperpageOk(SplitSuperpage(t, v).0, v);
  }

  /** `unmap_kernel_4k` */
  function UnmapKernel4k(t: Tables, v: Va): (r: (Tables, bool))
    requires Inv(t) && InVa(v)
  {
    SplitSuperpageOk(t, v);
    var (t1, ok) := SplitSuperpage(t, v);
    if !ok then (t1, false) else Unmap4k(t1, v)
  }

  /** `map_kernel_4k` */
  function MapKernel4k(t: Tables, v: Va, ppn: Ppn, flags: bv10): (r: (Tables, bool))
    requires Inv(t) && InVa(v)
  {
    SplitSuperpageOk(t, v);
    var (t1, ok) := SplitSuperpage(t, v);
    if !ok then (t1, false) else Map4k(t1, v, ppn, flags)
  }

  /** A kernel page whose superpage, if it lies in one, is aligned. */
  predicate SplitsWell(t: Tables, v: Va)
    requires Inv(t) && InVa(v)
  {
    IsTable(Entry2(t, v)) && IsLeaf(Entry1(t, v)) ==> Entry1(t, v).ppn % 512 == 0
  }

  /**
    Taking out a kernel page removes it; it changes no other page exactly when the superpage around it, if
    there is one, is aligned or rejected by the hardware.
  */
  lemma UnmapKernel4kIff(t: Tables, v: Va)
    requires Inv(t) && InVa(v)
    ensures var (r, ok) := UnmapKernel4k(t, v);
            && Inv(r) && (ok <==> SplitSuperpage(t, v).1) && (!ok ==> SameMeaning(t, r))
            && (ok ==> Translate(r, v) == None
                       && (SameBut(t, r, v) <==> SplitsWell(t, v) || Rejected(Entry1(t, v))))
  {
    SplitSuperpageOk(t, v);
    var (t1, ok) := SplitSuperpage(t, v);
    if ok {
      Unmap4kOk(t1, v);
      var r := Unmap4k(t1, v).0;
      if SplitsWell(t, v) || Rejected(Entry1(t, v)) {
        SameThenBut(t, t1, r, v);
      } else {
        var w := Va(v.l2, v.l1, if v.l0 == 0 then 1 else 0);
        SplitChanges(t, v, w);
        ChangedThenBut(t, t1, r, v, w);
      }
    }
  }

  lemma SameThenBut(t: Tables, t1: Tables, r: Tables, v: Va)
    requires Inv(t) && Inv(t1) && Inv(r) && SameMeaning(t, t1) && SameBut(t1, r, v)
    ensures SameBut(t, r, v)
  {
  }

  lemma ChangedThenBut(t: Tables, t1: Tables, r: Tables, v: Va, w: Va)
    requires Inv(t) && Inv(t1) && Inv(r) && InVa(w) && w != v && SameBut(t1, r, v)
    requires Translate(t1, w) != Translate(t, w)
    ensures !SameBut(t, r, v)
  {
    assert Translate(r, w) == Translate(t1, w);
  }

  /** Splitting a misaligned superpage gives all its pages a translation they did not have. */
  lemma SplitChanges(t: Tables, v: Va, w: Va)
    requires Inv(t) && InVa(v) && InVa(w) && w.l2 == v.l2 && w.l1 == v.l1 && SplitSuperpage(t, v).1
    requires IsTable(Entry2(t, v)) && IsLeaf(Entry1(t, v)) && Entry1(t, v).ppn % 512 != 0 && !Rejected(Entry1(t, v))
    ensures Inv(SplitSuperpage(t, v).0) && Translate(SplitSuperpage(t, v).0, w) != Translate(t, w)
  {
    SplitSuperpageOk(t, v);
    EnsureTableOk(t, t.root, v.l2);
    Path(t, v);
    var m, e := Entry2(t, v).ppn, Entry1(t, v);
    assert Linked(t, m);
    AttachInv(t, m, v.l1, Pieces(e));
    AttachLow(t, m, Pieces(e), w);
    PieceTranslates(e, w.l0);
  }

  /** Taking out a kernel page removes it and nothing else, also from inside a superpage. */
  lemma UnmapKernel4kOk(t: Tables, v: Va)
    requires Inv(t) && InVa(v) && SplitsWell(t, v)
    ensures var (r, ok) := UnmapKernel4k(t, v);
            && Inv(r) && (ok <==> SplitSuperpage(t, v).1)
            && (ok ==> Translate(r, v) == None && SameBut(t, r, v) && !Super(r, v) && Missing(r, v) == 0)
            && (!ok ==> SameMeaning(t, r))
  {
    SplitSuperpageOk(t, v);
    var (t1, ok) := SplitSuperpage(t, v);
    if ok {
      Unmap4kOk(t1, v);
      UnmapKeepsTables(t1, v);
    }
  }

  lemma UnmapKeepsTables(t: Tables, v: Va)
    requires Inv(t) && InVa(v) && !Super(t, v) && Missing(t, v) == 0
    ensures var r := Unmap4k(t, v).0; Inv(r) && !Super(r, v) && Missing(r, v) == 0
  {
    Unmap4kOk(t, v);
    Path(t, v);
    if LeafPte(t, v) != EMPTY {
      DescendOk(t, v);
      var q := Descend(t, v).1;
      SetLow(t, q.value, EMPTY, v);
      LowPath(SetEntry(t, q.value, v.l0, EMPTY), q.value, v);
    }
  }

  /**
    The guard page of a kernel stack: unmapping it and later mapping it again to its own address restores
    the translation of every page, and the second step cannot fail and takes no memory.
  */
  lemma GuardRoundTrip(t: Tables, v: Va, self: Ppn)
    requires Inv(t) && InVa(v) && SplitsWell(t, v)
    requires Translate(t, v) == Some(Xlat(self, LEAF_RW)) && UnmapKernel4k(t, v).1
    ensures var r1 := UnmapKernel4k(t, v).0;
            && Inv(r1) && Translate(r1, v) == None
            && var (r2, ok) := MapKernel4k(r1, v, self, LEAF_RW);
               ok && Inv(r2) && SameMeaning(t, r2) && r2.pool == r1.pool
  {
    UnmapKernel4kOk(t, v);
    var r1 := UnmapKernel4k(t, v).0;
    SplitSuperpageOk(r1, v);
    assert IsTable(Entry2(r1, v)) && IsTable(Entry1(r1, v));
    Map4kOk(r1, v, self, LEAF_RW);
    assert OfEntry0(Pte(self, LEAF_RW)) == Some(Xlat(self, LEAF_RW));
    var r2 := MapKernel4k(r1, v, self, LEAF_RW).0;
    forall w | InVa(w) ensures Translate(r2, w) == Translate(t, w) {
      if w != v { assert Translate(r1, w) == Translate(t, w); }
    }
  }

  /** `map_super` */
  function MapSuper(t: Tables, v: Va, ppn: Ppn, flags: bv10): (r: (Tables, bool))
    requires Inv(t) && InVa(v)
  {
    EnsureTableOk(t, t.root, v.l2);
    var (t1, m) := EnsureTable(t, t.root, v.l2);
    if m.None? then (t1, false)
    else
      assert Linked(t1, m.value);
      (SetEntry(t1, m.value, v.l1, Pte(ppn, flags)), true)
  }

  /** A table hangs where the superpage would go. */
  predicate TableBelow(t: Tables, v: Va)
    requires Inv(t) && InVa(v)
  {
    IsTable(Entry2(t, v)) && IsTable(Entry1(t, v))
  }

  /** Writing a leaf over a level-1 entry that is no table. */
  lemma SetSuper(t: Tables, m: Ppn, v: Va, e: Pte)
    requires Inv(t) && InVa(v) && m in t.role && t.role[m] == Mid(v.l2) && m in t.mem && |t.mem[m]| == ENTRIES
    requires !IsTable(t.mem[m][v.l1]) && IsLeaf(e)
    ensures var r := SetEntry(t, m, v.l1, e);
            && Inv(r)
            && forall w :: InVa(w) ==>
                 Translate(r, w) == if w.l2 == v.l2 && w.l1 == v.l1 then ByLeaf(e, 512, w.l0) else Translate(t, w)
  {
    SetEntryInv(t, m, v.l1, e);
    var r := SetEntry(t, m, v.l1, e);
    forall w | InVa(w)
      ensures Translate(r, w) == if w.l2 == v.l2 && w.l1 == v.l1 then ByLeaf(e, 512, w.l0) else Translate(t, w)
    {
      if w.l2 == v.l2 && w.l1 == v.l1 {
        MidPath(r, m, w);
      } else {
        SetEntryElsewhere(t, m, v.l1, e, w);
      }
    }
  }

  /** A table that is written over hangs nowhere any more. */
  lemma LosesTable(t: Tables, m: Ppn, v: Va, e: Pte)
    requires Inv(t) && InVa(v) && m in t.role && t.role[m] == Mid(v.l2) && m in t.mem && |t.mem[m]| == ENTRIES
    requires IsTable(t.mem[m][v.l1]) && IsLeaf(e)
    ensures !Inv(SetEntry(t, m, v.l1, e))
  {
    var r, q := SetEntry(t, m, v.l1, e), t.mem[m][v.l1].ppn;
    assert Linked(t, m) && q in r.role && r.role[q] == Low(v.l2, v.l1);
    MidPath(t, m, v);
    if Inv(r) {
      LowPath(r, q, v);
      MidPath(r, m, v);
    }
  }

  /**
    A superpage gives its 512 pages consecutive ones, none if it is misaligned, and changes no other page.
    It keeps the tables a tree exactly when no table was in its place.
  */
  lemma MapSuperIff(t: Tables, v: Va, ppn: Ppn, flags: bv10)
    requires Inv(t) && InVa(v) && IsLeaf(Pte(ppn, flags))
    ensures var (r, ok) := MapSuper(t, v, ppn, flags);
            && (ok <==> IsTable(Entry2(t, v)) || (!Valid(Entry2(t, v)) && t.pool != [])) && (!ok ==> r == t)
            && (ok ==> (Inv(r) <==> !TableBelow(t, v)))
            && (ok && !TableBelow(t, v) ==> forall w :: InVa(w) ==>
                  Translate(r, w) == if w.l2 == v.l2 && w.l1 == v.l1 then ByLeaf(Pte(ppn, flags), 512, w.l0)
                                     else Translate(t, w))
  {
    assert Linked(t, t.root);
    EnsureTableOk(t, t.root, v.l2);
    var (t1, m) := EnsureTable(t, t.root, v.l2);
    if m.Some? {
      assert Linked(t1, m.value);
      MidPath(t1, m.value, v);
      if !Valid(Entry2(t, v)) { NewMidEmpty(t, v); }
      if TableBelow(t, v) {
        LosesTable(t1, m.value, v, Pte(ppn, flags));
      } else {
        SetSuper(t1, m.value, v, Pte(ppn, flags));
      }
    }
  }

  lemma EmptyRootInv(t: Tables)
    requires t == Tables(0, map[0 := Zeroed()], map[0 := Root], [1, 2])
    ensures Inv(t)
  {
    assert Linked(t, 0) && Hangs(t, 0);
  }

  /** A page is mapped below an empty root, and then a superpage over its table: the table hangs nowhere any more. */
  lemma SuperOverTable(t: Tables, v: Va, ppn: Ppn)
    requires v == Va(0, 0, 0) && t == Tables(0, map[0 := Zeroed()], map[0 := Root], [1, 2])
    ensures Inv(t)
    ensures var (u, mapped) := Map4k(t, v, ppn, LEAF_RW);
            && mapped && Inv(u)
            && var (r, ok) := MapSuper(u, v, ppn, LEAF_RW); ok && !Inv(r)
  {
    EmptyRootInv(t);
    Map4kOk(t, v, ppn, LEAF_RW);
    DescendOk(t, v);
    var u := Map4k(t, v, ppn, LEAF_RW).0;
    LowPath(u, Descend(t, v).1.value, v);
    MapSuperIff(u, v, ppn, LEAF_RW);
  }
}
