/**
  Sv39 page tables as memory: pages of 512 entries that form a tree. What they mean is the
  translation of each virtual page, which is the hardware's walk over that memory.
*/
module MmuModel {
  import opened Common

  const ENTRIES := 512

  const V: bv10 := 1
  const R: bv10 := 2
  const W: bv10 := 4
  const X: bv10 := 8
  const U: bv10 := 16
  const LEAF_RW: bv10 := 0xC7

  /** Page numbers in entries have 44 bits. */
  const PPN_LIMIT := 0x1000_0000_0000
  type Ppn = n: nat | n < PPN_LIMIT

  /** An entry: page number and the ten low flag bits. */
  datatype Pte = Pte(ppn: Ppn, flags: bv10)

  const EMPTY := Pte(0, 0)

  predicate Valid(e: Pte) { e.flags & V != 0 }
  predicate IsLeaf(e: Pte) { Valid(e) && e.flags & (R | W | X) != 0 }
  predicate IsTable(e: Pte) { Valid(e) && e.flags & (R | W | X) == 0 }
  predicate IsUser(e: Pte) { e.flags & U != 0 }

  /** A virtual page, by its three table indices. */
  datatype Va = Va(l2: nat, l1: nat, l0: nat)

  predicate InVa(v: Va) { v.l2 < ENTRIES && v.l1 < ENTRIES && v.l0 < ENTRIES }

  /** The place a table page has in the tree. */
  datatype Role = Root | Mid(l2: nat) | Low(l2: nat, l1: nat)

  /** `role` records the tree; `pool` is what the page allocator will hand out, in order. */
  datatype Tables = Tables(root: Ppn, mem: map<Ppn, seq<Pte>>, role: map<Ppn, Role>, pool: seq<Ppn>)

  /** Where an entry of a table of this role leads. */
  function Child(r: Role, i: nat): (c: Role)
    requires !r.Low?
  {
    if r.Root? then Mid(i) else Low(r.l2, i)
  }

  /** Table `p` is whole, and its table pointers lead where they should. */
  ghost predicate Linked(t: Tables, p: Ppn) {
    && p in t.mem && p in t.role && |t.mem[p]| == ENTRIES
    && (t.role[p].Low? ||
        forall i :: 0 <= i < ENTRIES && IsTable(t.mem[p][i]) ==>
          var q := t.mem[p][i].ppn; q in t.role && t.role[q] == Child(t.role[p], i))
  }

  /** A table other than the root hangs in the entry that its role names. */
  ghost predicate Hangs(t: Tables, q: Ppn)
    requires q in t.role
  {
    match t.role[q]
    case Root => q == t.root
    case Mid(l2) => l2 < ENTRIES && t.root in t.mem && |t.mem[t.root]| == ENTRIES && t.mem[t.root][l2] == Pte(q, V)
    case Low(l2, l1) =>
      l1 < ENTRIES && exists p :: p in t.role && p in t.mem && |t.mem[p]| == ENTRIES
                                  && t.role[p] == Mid(l2) && t.mem[p][l1] == Pte(q, V)
  }

  /** The tables form a tree, every one of them reachable, and the pool is apart from them. */
  ghost predicate Inv(t: Tables) {
    var linked, hangs := forall p :: p in t.mem ==> Linked(t, p), forall p :: p in t.role ==> Hangs(t, p);
    && linked && hangs && t.root in t.role && t.role[t.root] == Root && t.role.Keys == t.mem.Keys
    && NoDup(t.pool) && (forall p :: p in t.pool ==> p !in t.mem)
  }

  // ----- The walk -----

  /** The entry of level-1 and level-0 tables on the way to `v`. */
  function Entry2(t: Tables, v: Va): (e: Pte)
    requires Inv(t) && InVa(v)
  {
    t.mem[t.root][v.l2]
  }

  function Entry1(t: Tables, v: Va): (e: Pte)
    requires Inv(t) && InVa(v) && IsTable(Entry2(t, v))
  {
    assert Linked(t, t.root);
    t.mem[Entry2(t, v).ppn][v.l1]
  }

  function Entry0(t: Tables, v: Va): (e: Pte)
    requires Inv(t) && InVa(v) && IsTable(Entry2(t, v)) && IsTable(Entry1(t, v))
  {
    assert Linked(t, t.root) && Linked(t, Entry2(t, v).ppn);
    t.mem[Entry1(t, v).ppn][v.l0]
  }

  /** `leaf_pte`: the entry that ends the walk, or an empty one; superpage entries are returned as they are. */
  function LeafPte(t: Tables, v: Va): (e: Pte)
    requires Inv(t) && InVa(v)
  {
    var e2 := Entry2(t, v);
    if !Valid(e2) then EMPTY
    else if IsLeaf(e2) then e2
    else
      var e1 := Entry1(t, v);
      if !Valid(e1) then EMPTY
      else if IsLeaf(e1) then e1
      else
        var e0 := Entry0(t, v);
        if !Valid(e0) then EMPTY else e0
  }

  /** Physical page and flags of a virtual page. */
  datatype Xlat = Xlat(ppn: nat, flags: bv10)

  /**
    The Sv39 walk, as the section on virtual address translation of the RISC-V Privileged Architecture
    defines it: a leaf translates unless it is writable but not readable, or a superpage is misaligned.
  */
  function ByLeaf(e: Pte, span: nat, offset: nat): (r: Option<Xlat>)
    requires span > 0
  {
    if e.flags & R == 0 && e.flags & W != 0 then None
    else if e.ppn % span != 0 then None
    else Some(Xlat(e.ppn + offset, e.flags))
  }

  function Translate(t: Tables, v: Va): (r: Option<Xlat>)
    requires Inv(t) && InVa(v)
  {
    var e2 := Entry2(t, v);
    if !Valid(e2) then None
    else if IsLeaf(e2) then ByLeaf(e2, 0x4_0000, v.l1 * 512 + v.l0)
    else
      var e1 := Entry1(t, v);
      if !Valid(e1) then None
      else if IsLeaf(e1) then ByLeaf(e1, 512, v.l0)
      else
        var e0 := Entry0(t, v);
        if IsLeaf(e0) then ByLeaf(e0, 1, 0) else None
  }

  /** The same virtual memory. */
  ghost predicate SameMeaning(t: Tables, r: Tables)
    requires Inv(t) && Inv(r)
  {
    forall v :: InVa(v) ==> Translate(r, v) == Translate(t, v)
  }

  /** The same virtual memory but for page `v`. */
  ghost predicate SameBut(t: Tables, r: Tables, v: Va)
    requires Inv(t) && Inv(r)
  {
    forall w :: InVa(w) && w != v ==> Translate(r, w) == Translate(t, w)
  }

  // ----- Writing entries -----

  function SetEntry(t: Tables, p: Ppn, i: nat, e: Pte): (r: Tables)
    requires p in t.mem && i < |t.mem[p]|
  {
    t.(mem := t.mem[p := t.mem[p][i := e]])
  }

  /** A page table full of empty entries. */
  function Zeroed(): (s: seq<Pte>)
    ensures |s| == ENTRIES && forall i :: 0 <= i < ENTRIES ==> s[i] == EMPTY
  {
    seq(ENTRIES, i => EMPTY)
  }

  /** The first page of the pool becomes a table, filled with `content`, in entry `i` of table `p`. */
  function Attach(t: Tables, p: Ppn, i: nat, content: seq<Pte>): (r: Tables)
    requires p in t.mem && p in t.role && !t.role[p].Low? && i < |t.mem[p]| && t.pool != []
  {
    var q := t.pool[0];
    Tables(t.root, t.mem[q := content][p := t.mem[p][i := Pte(q, V)]], t.role[q := Child(t.role[p], i)], t.pool[1..])
  }

  lemma PoolHead(t: Tables)
    requires Inv(t) && t.pool != []
    ensures t.pool[0] !in t.mem && t.pool[0] !in t.role
    ensures NoDup(t.pool[1..]) && forall p :: p in t.pool[1..] ==> p !in t.mem && p != t.pool[0]
  {
    assert t.pool[0] in t.pool;
    forall p | p in t.pool[1..] ensures p !in t.mem && p != t.pool[0] {
      var j :| 0 <= j < |t.pool[1..]| && t.pool[1..][j] == p;
      assert t.pool[j + 1] == p && p in t.pool;
    }
  }

  lemma SetEntryHangs(t: Tables, p: Ppn, i: nat, e: Pte, x: Ppn)
    requires Inv(t) && p in t.mem && i < ENTRIES && x in t.role
    requires t.role[p].Low? || !IsTable(t.mem[p][i])
    ensures Hangs(SetEntry(t, p, i, e), x)
  {
    var r := SetEntry(t, p, i, e);
    assert Hangs(t, x) && IsTable(Pte(x, V));
    if t.role[x].Low? {
      var m :| m in t.role && m in t.mem && |t.mem[m]| == ENTRIES && t.role[m] == Mid(t.role[x].l2) &&
        t.mem[m][t.role[x].l1] == Pte(x, V);
      assert r.mem[m][t.role[x].l1] == Pte(x, V);
    }
  }

  /** A change of one entry that is neither before nor after a table pointer keeps the tree. */
  lemma SetEntryInv(t: Tables, p: Ppn, i: nat, e: Pte)
    requires Inv(t) && p in t.mem && i < ENTRIES
    requires t.role[p].Low? || (!IsTable(t.mem[p][i]) && !IsTable(e))
    ensures Inv(SetEntry(t, p, i, e))
  {
    var r := SetEntry(t, p, i, e);
    forall x | x in r.role ensures Hangs(r, x) {
      SetEntryHangs(t, p, i, e, x);
    }
    forall x | x in r.mem ensures Linked(r, x) {
      assert Linked(t, x);
    }
  }

  /** An empty entry, or a leaf, may be replaced by a new table. */
  lemma AttachInv(t: Tables, p: Ppn, i: nat, content: seq<Pte>)
    requires Inv(t) && p in t.mem && i < ENTRIES && !t.role[p].Low? && !IsTable(t.mem[p][i]) && t.pool != []
    requires |content| == ENTRIES && forall k :: 0 <= k < ENTRIES ==> !IsTable(content[k])
    ensures Inv(Attach(t, p, i, content))
  {
    PoolHead(t);
    var q, r := t.pool[0], Attach(t, p, i, content);
    assert IsTable(Pte(q, V));
    forall x | x in r.role ensures Hangs(r, x) {
      if x == q {
        if t.role[p].Mid? { assert r.role[p] == Mid(t.role[p].l2) && r.mem[p][i] == Pte(q, V); }
      } else {
        AttachHangs(t, p, i, content, x);
      }
    }
    forall x | x in r.mem ensures Linked(r, x) {
      if x != q { assert Linked(t, x); }
    }
  }

  lemma AttachHangs(t: Tables, p: Ppn, i: nat, content: seq<Pte>, x: Ppn)
    requires Inv(t) && p in t.mem && i < ENTRIES && !t.role[p].Low? && !IsTable(t.mem[p][i]) && t.pool != []
    requires |content| == ENTRIES && x in t.role
    ensures x in Attach(t, p, i, content).role && Hangs(Attach(t, p, i, content), x)
  {
    PoolHead(t);
    var q, r := t.pool[0], Attach(t, p, i, content);
    assert Hangs(t, x) && IsTable(Pte(x, V));
    if t.role[x].Low? {
      var m :| m in t.role && m in t.mem && |t.mem[m]| == ENTRIES && t.role[m] == Mid(t.role[x].l2) &&
        t.mem[m][t.role[x].l1] == Pte(x, V);
      assert r.mem[m][t.role[x].l1] == Pte(x, V);
    }
  }

  // ----- What a write means -----

  /** The walk for `v` reads entry `i` of a table with this role. */
  predicate Through(r: Role, i: nat, v: Va) {
    match r
    case Root => v.l2 == i
    case Mid(l2) => v.l2 == l2 && v.l1 == i
    case Low(l2, l1) => v == Va(l2, l1, i)
  }

  lemma Path(t: Tables, v: Va)
    requires Inv(t) && InVa(v)
    ensures |t.mem[t.root]| == ENTRIES
    ensures IsTable(Entry2(t, v)) ==>
      var p := Entry2(t, v).ppn; p in t.mem && t.role[p] == Mid(v.l2) && |t.mem[p]| == ENTRIES
    ensures IsTable(Entry2(t, v)) && IsTable(Entry1(t, v)) ==>
              var q := Entry1(t, v).ppn; q in t.mem && t.role[q] == Low(v.l2, v.l1) && |t.mem[q]| == ENTRIES
  {
    assert Linked(t, t.root);
    if IsTable(Entry2(t, v)) {
      assert Linked(t, Entry2(t, v).ppn);
    }
  }

  /** The table with role `Low(l2, l1)` is the one the walk reaches. */
  lemma LowPath(t: Tables, q: Ppn, v: Va)
    requires Inv(t) && InVa(v) && q in t.role && t.role[q] == Low(v.l2, v.l1)
    ensures IsTable(Entry2(t, v)) && IsTable(Entry1(t, v)) && Entry1(t, v).ppn == q && |t.mem[q]| == ENTRIES
  {
    assert Hangs(t, q) && Linked(t, q);
    var m :| m in t.role && m in t.mem && |t.mem[m]| == ENTRIES && t.role[m] == Mid(v.l2) &&
      t.mem[m][v.l1] == Pte(q, V);
    MidPath(t, m, v);
    assert IsTable(Pte(q, V));
  }

  lemma MidPath(t: Tables, m: Ppn, v: Va)
    requires Inv(t) && InVa(v) && m in t.role && t.role[m] == Mid(v.l2)
    ensures Entry2(t, v) == Pte(m, V) && IsTable(Entry2(t, v))
  {
    assert Hangs(t, m);
    assert IsTable(Pte(m, V));
  }

  /** Walks that read the same entries end the same. */
  lemma SameWalk(t: Tables, r: Tables, v: Va)
    requires Inv(t) && Inv(r) && InVa(v) && Entry2(r, v) == Entry2(t, v)
    requires IsTable(Entry2(t, v)) ==> Entry1(r, v) == Entry1(t, v)
    requires IsTable(Entry2(t, v)) && IsTable(Entry1(t, v)) ==> Entry0(r, v) == Entry0(t, v)
    ensures Translate(r, v) == Translate(t, v) && LeafPte(r, v) == LeafPte(t, v)
  {
  }

  /** Walks that do not read the entry do not notice. */
  lemma SetEntryElsewhere(t: Tables, p: Ppn, i: nat, e: Pte, v: Va)
    requires Inv(t) && p in t.mem && i < ENTRIES && InVa(v) && Inv(SetEntry(t, p, i, e)) && !Through(t.role[p], i, v)
    ensures Translate(SetEntry(t, p, i, e), v) == Translate(t, v) && LeafPte(SetEntry(t, p, i, e), v) == LeafPte(t, v)
  {
    var r := SetEntry(t, p, i, e);
    Path(t, v);
    assert Entry2(r, v) == Entry2(t, v);
    if IsTable(Entry2(t, v)) {
      assert Entry1(r, v) == Entry1(t, v);
    }
    SameWalk(t, r, v);
  }

  lemma AttachElsewhere(t: Tables, p: Ppn, i: nat, content: seq<Pte>, v: Va)
    requires Inv(t) && p in t.mem && i < ENTRIES && !t.role[p].Low? && t.pool != [] && |content| == ENTRIES
    requires InVa(v) && Inv(Attach(t, p, i, content)) && !Through(t.role[p], i, v)
    ensures Translate(Attach(t, p, i, content), v) == Translate(t, v)
    ensures LeafPte(Attach(t, p, i, content), v) == LeafPte(t, v)
  {
    var r := Attach(t, p, i, content);
    PoolHead(t);
    Path(t, v);
    assert Entry2(r, v) == Entry2(t, v);
    if IsTable(Entry2(t, v)) {
      assert Entry1(r, v) == Entry1(t, v);
    }
    SameWalk(t, r, v);
  }

  function OfEntry0(e: Pte): (r: Option<Xlat>) {
    if IsLeaf(e) then ByLeaf(e, 1, 0) else None
  }

  /** Writing the last entry of a walk sets that one translation. */
  lemma SetLow(t: Tables, q: Ppn, e: Pte, v: Va)
    requires Inv(t) && InVa(v) && q in t.role && t.role[q] == Low(v.l2, v.l1)
    ensures q in t.mem && |t.mem[q]| == ENTRIES && Inv(SetEntry(t, q, v.l0, e))
    ensures var r := SetEntry(t, q, v.l0, e); Translate(r, v) == OfEntry0(e) && SameBut(t, r, v)
  {
    LowPath(t, q, v);
    SetEntryInv(t, q, v.l0, e);
    var r := SetEntry(t, q, v.l0, e);
    LowPath(r, q, v);
    forall w | InVa(w) && w != v ensures Translate(r, w) == Translate(t, w) {
      SetEntryElsewhere(t, q, v.l0, e, w);
    }
  }

  /** Hanging a table of leaves below a level-1 entry gives the pages it covers the translations of those leaves. */
  lemma AttachLow(t: Tables, p: Ppn, content: seq<Pte>, v: Va)
    requires Inv(t) && InVa(v) && p in t.role && t.role[p] == Mid(v.l2) && t.pool != [] && |content| == ENTRIES
    requires p in t.mem && |t.mem[p]| == ENTRIES && Inv(Attach(t, p, v.l1, content))
    ensures var r := Attach(t, p, v.l1, content);
            && Translate(r, v) == OfEntry0(content[v.l0])
            && IsTable(Entry2(r, v)) && IsTable(Entry1(r, v)) && Entry0(r, v) == content[v.l0]
  {
    PoolHead(t);
    var r := Attach(t, p, v.l1, content);
    MidPath(r, p, v);
    LowPath(r, t.pool[0], v);
  }
}
