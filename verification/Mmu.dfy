/** Page-table memory updated in place, and the bit layout of an entry. */
module MmuObject {
  import opened Common
  import opened MmuModel
  import opened MmuOps
  import opened MmuKernel
  import opened MmuDestroy

  class AddressSpace {
    const root: Ppn
    var mem: map<Ppn, seq<Pte>>
    var pool: seq<Ppn>
    ghost var role: map<Ppn, Role>

    ghost function St(): (t: Tables)
      reads this
    {
      Tables(root, mem, role, pool)
    }

    /** A root table of empty entries. */
    constructor (page: Ppn, pages: seq<Ppn>)
      requires NoDup(pages) && page !in pages
      ensures MmuModel.Inv(St()) && forall v :: InVa(v) ==> Translate(St(), v) == None
    {
      root := page;
      mem := map[page := Zeroed()];
      role := map[page := Root];
      pool := pages;
      new;
      assert Linked(St(), page) && Hangs(St(), page);
    }

    /** `ensure_table`, `ensure_table_user` */
    method EnsureTable(p: Ppn, i: nat) returns (c: Option<Ppn>)
      requires MmuModel.Inv(St()) && p in role && !role[p].Low? && i < ENTRIES
      modifies this
      ensures p in old(mem) && |old(mem)[p]| == ENTRIES && (St(), c) == MmuOps.EnsureTable(old(St()), p, i)
      ensures MmuModel.Inv(St())
    {
      EnsureTableOk(St(), p, i);
      var e := mem[p][i];
      if Valid(e) {
        return if IsLeaf(e) then None else Some(e.ppn);
      }
      if pool == [] {
        return None;
      }
      var page := pool[0];
      PoolHead(St());
      role := role[page := Child(role[p], i)];
      pool := pool[1..];
      mem := mem[page := Zeroed()];
      mem := mem[p := mem[p][i := Pte(page, V)]];
      return Some(page);
    }

    /** `map_user_page` */
    method MapUserPage(vaddr: nat, paddr: nat, flags: bv10, managed: bool) returns (ok: bool)
      requires MmuModel.Inv(St())
      modifies this
      ensures (St(), ok) == MmuOps.MapUserPage(old(St()), vaddr, paddr, flags, managed)
    {
      if vaddr >= USER_VA_LIMIT || paddr % 0x1000 != 0 || !managed {
        return false;
      }
      var v := Index(vaddr);
      var table := Walk(v);
      if table.None? {
        return false;
      }
      LowPath(St(), table.value, v);
      if Valid(mem[table.value][v.l0]) {
        return false;
      }
      mem := mem[table.value := mem[table.value][v.l0 := Pte(PpnOf(paddr), flags | U)]];
      return true;
    }

    /** The two table lookups that mapping and unmapping begin with. */
    method Walk(v: Va) returns (table: Option<Ppn>)
      requires MmuModel.Inv(St()) && InVa(v)
      modifies this
      ensures MmuModel.Inv(St()) && (St(), table) == Descend(old(St()), v)
      ensures table.Some? ==> table.value in role && role[table.value] == Low(v.l2, v.l1)
    {
      DescendOk(St(), v);
      EnsureTableOk(St(), root, v.l2);
      var mid := EnsureTable(root, v.l2);
      if mid.None? {
        return None;
      }
      table := EnsureTable(mid.value, v.l1);
    }

    /** `map_4k` */
    method Map4k(v: Va, ppn: Ppn, flags: bv10) returns (ok: bool)
      requires MmuModel.Inv(St()) && InVa(v)
      modifies this
      ensures (St(), ok) == MmuOps.Map4k(old(St()), v, ppn, flags)
    {
      var table := Walk(v);
      if table.None? {
        return false;
      }
      LowPath(St(), table.value, v);
      mem := mem[table.value := mem[table.value][v.l0 := Pte(ppn, flags)]];
      return true;
    }

    /** `unmap_4k` */
    method Unmap4k(v: Va) returns (ok: bool)
      requires MmuModel.Inv(St()) && InVa(v)
      modifies this
      ensures (St(), ok) == MmuOps.Unmap4k(old(St()), v)
    {
      var leaf := LeafEntry(v);
      if leaf == EMPTY {
        return true;
      }
      var table := Walk(v);
      if table.None? {
        return false;
      }
      LowPath(St(), table.value, v);
      mem := mem[table.value := mem[table.value][v.l0 := EMPTY]];
      return true;
    }

    /** `leaf_pte` */
    method LeafEntry(v: Va) returns (e: Pte)
      requires MmuModel.Inv(St()) && InVa(v)
      ensures e == LeafPte(St(), v)
    {
      Path(St(), v);
      e := mem[root][v.l2];
      if !Valid(e) {
        return EMPTY;
      }
      if IsLeaf(e) {
        return;
      }
      e := mem[e.ppn][v.l1];
      if !Valid(e) {
        return EMPTY;
      }
      if IsLeaf(e) {
        return;
      }
      e := mem[e.ppn][v.l0];
      if !Valid(e) {
        return EMPTY;
      }
    }

    /** `split_superpage` */
    method SplitSuperpage(v: Va) returns (ok: bool)
      requires MmuModel.Inv(St()) && InVa(v)
      modifies this
      ensures (St(), ok) == MmuKernel.SplitSuperpage(old(St()), v)
    {
      EnsureTableOk(St(), root, v.l2);
      var mid := EnsureTable(root, v.l2);
      if mid.None? {
        return false;
      }
      assert Linked(St(), mid.value);
      var e := mem[mid.value][v.l1];
      if !Valid(e) {
        return false;
      }
      if IsTable(e) {
        return true;
      }
      if pool == [] {
        return false;
      }
      var sub := pool[0];
      PoolHead(St());
      var table := FillPieces(e);
      role := role[sub := Child(role[mid.value], v.l1)];
      pool := pool[1..];
      mem := mem[sub := table];
      mem := mem[mid.value := mem[mid.value][v.l1 := Pte(sub, V)]];
      return true;
    }

    /** The loop of `split_superpage`. */
    static method FillPieces(e: Pte) returns (table: seq<Pte>)
      ensures table == Pieces(e)
    {
      table := Zeroed();
      var i := 0;
      while i < ENTRIES
        invariant 0 <= i <= ENTRIES && |table| == ENTRIES
        invariant forall k :: 0 <= k < i ==> table[k] == Pieces(e)[k]
      {
        table := table[i := Pte((e.ppn + i) % PPN_LIMIT, e.flags)];
        i := i + 1;
      }
    }

    /** `unmap_kernel_4k` */
    method UnmapKernel4k(v: Va) returns (ok: bool)
      requires MmuModel.Inv(St()) && InVa(v)
      modifies this
      ensures (St(), ok) == MmuKernel.UnmapKernel4k(old(St()), v)
    {
      SplitSuperpageOk(St(), v);
      ok := SplitSuperpage(v);
      if ok {
        ok := Unmap4k(v);
      }
    }

    /** `map_kernel_4k`; `remap_kernel_4k` is the call with the page's own address and read-write flags */
    method MapKernel4k(v: Va, ppn: Ppn, flags: bv10) returns (ok: bool)
      requires MmuModel.Inv(St()) && InVa(v)
      modifies this
      ensures (St(), ok) == MmuKernel.MapKernel4k(old(St()), v, ppn, flags)
    {
      SplitSuperpageOk(St(), v);
      ok := SplitSuperpage(v);
      if ok {
        ok := Map4k(v, ppn, flags);
      }
    }

    /** `destroy_root`: the pages it frees, in order */
    method DestroyRoot(managed: set<Ppn>) returns (freed: seq<nat>)
      requires MmuModel.Inv(St())
      ensures freed == Destroyed(St(), managed)
    {
      freed := [];
      assert Linked(St(), root);
      var l2 := 0;
      while l2 < ENTRIES
        invariant 0 <= l2 <= ENTRIES && freed == RootFreed(St(), managed, l2)
      {
        var e := mem[root][l2];
        if IsTable(e) {
          var below := FreeMid(e.ppn, managed);
          freed := freed + (below + [e.ppn]);
        } else {
          assert freed + [] == freed;
        }
        l2 := l2 + 1;
      }
      freed := freed + [root];
    }

    method FreeMid(m: Ppn, managed: set<Ppn>) returns (freed: seq<nat>)
      requires MmuModel.Inv(St()) && m in role && role[m].Mid?
      ensures freed == MidFreed(St(), m, managed, ENTRIES)
    {
      freed := [];
      assert Linked(St(), m);
      var l1 := 0;
      while l1 < ENTRIES
        invariant 0 <= l1 <= ENTRIES && freed == MidFreed(St(), m, managed, l1)
      {
        var e := mem[m][l1];
        if IsTable(e) {
          assert Linked(St(), e.ppn);
          var below := FreeLow(e.ppn, managed);
          freed := freed + (below + [e.ppn]);
        } else {
          assert freed + [] == freed;
        }
        l1 := l1 + 1;
      }
    }

    method FreeLow(q: Ppn, managed: set<Ppn>) returns (freed: seq<nat>)
      requires q in mem && |mem[q]| == ENTRIES
      ensures freed == LowFreed(St(), q, managed, ENTRIES)
    {
      freed := [];
      var l0 := 0;
      while l0 < ENTRIES
        invariant 0 <= l0 <= ENTRIES && freed == LowFreed(St(), q, managed, l0)
      {
        var e := mem[q][l0];
        if Valid(e) && IsUser(e) && e.ppn in managed {
          freed := freed + [e.ppn];
        } else {
          assert freed + [] == freed;
        }
        l0 := l0 + 1;
      }
    }
  }

  // ----- Bits -----

  /** `pte`: the page number of a physical address above ten flag bits. */
  function Encode(paddr: bv64, flags: bv64): (e: bv64) {
    (((paddr >> 12) & 0xFFF_FFFF_FFFF) << 10) | flags
  }

  /** The physical address in an entry, as every walk extracts it. */
  function Address(e: bv64): (paddr: bv64) {
    ((e >> 10) & 0xFFF_FFFF_FFFF) << 12
  }

  /** An entry gives back the page-aligned address and the flags it was made of. */
  lemma EncodeDecode(paddr: bv64, flags: bv64)
    requires paddr & 0xFFF == 0 && paddr >> 56 == 0 && flags >> 10 == 0
    ensures Address(Encode(paddr, flags)) == paddr && Encode(paddr, flags) & 0x3FF == flags
    ensures Encode(paddr, flags) & !(0xFFF_FFFF_FFFF << 10) == flags
  {
  }
}
