/** `destroy_root`: which pages it gives back. */
module MmuDestroy {
  import opened Common
  import opened MmuModel

  /** A level-0 entry whose page belongs to the process: a user leaf inside the allocator's range. */
  predicate OwnEntry(e: Pte, managed: set<Ppn>) {
    Valid(e) && IsUser(e) && e.ppn in managed
  }

  /** Pages of the first `n` entries of a level-0 table. */
  function LowFreed(t: Tables, q: Ppn, managed: set<Ppn>, n: nat): (r: seq<nat>)
    requires q in t.mem && n <= |t.mem[q]|
    decreases n, managed
  {
    if n == 0 then []
    else
      var e := t.mem[q][n - 1];
      LowFreed(t, q, managed, n - 1) + if OwnEntry(e, managed) then [e.ppn] else []
  }

  /** Pages below the first `n` entries of a level-1 table: for each level-0 table its pages, then itself. */
  function MidFreed(t: Tables, m: Ppn, managed: set<Ppn>, n: nat): (r: seq<nat>)
    requires Inv(t) && m in t.role && t.role[m].Mid? && n <= ENTRIES
    decreases n, managed
  {
    assert Linked(t, m);
    if n == 0 then []
    else
      var e := t.mem[m][n - 1];
      MidFreed(t, m, managed, n - 1) +
      if IsTable(e) then
        assert Linked(t, e.ppn);
        LowFreed(t, e.ppn, managed, ENTRIES) + [e.ppn]
      else []
  }

  function RootFreed(t: Tables, managed: set<Ppn>, n: nat): (r: seq<nat>)
    requires Inv(t) && n <= ENTRIES
    decreases n, managed
  {
    assert Linked(t, t.root);
    if n == 0 then []
    else
      var e := t.mem[t.root][n - 1];
      RootFreed(t, managed, n - 1) + if IsTable(e) then MidFreed(t, e.ppn, managed, ENTRIES) + [e.ppn] else []
  }

  function Destroyed(t: Tables, managed: set<Ppn>): (r: seq<nat>)
    requires Inv(t)
  {
    RootFreed(t, managed, ENTRIES) + [t.root]
  }

  /** Page `p` is mapped at `v` as the process's own. */
  ghost predicate OwnAt(t: Tables, managed: set<Ppn>, v: Va, p: nat)
    requires Inv(t)
  {
    InVa(v) && IsTable(Entry2(t, v)) && IsTable(Entry1(t, v)) && OwnEntry(Entry0(t, v), managed) &&
      Entry0(t, v).ppn == p
  }

  /** Own pages are mapped once and are not page tables. */
  ghost predicate OwnedOnce(t: Tables, managed: set<Ppn>)
    requires Inv(t)
  {
    && (forall v: Va, w: Va, p: nat :: OwnAt(t, managed, v, p) && OwnAt(t, managed, w, p) ==> v == w)
    && (forall v: Va, p: nat :: OwnAt(t, managed, v, p) ==> p !in t.role)
  }

  ghost predicate FromLow(t: Tables, managed: set<Ppn>, p: nat, l2: nat, l1: nat, n: nat)
    requires Inv(t)
  {
    exists v: Va :: v.l2 == l2 && v.l1 == l1 && v.l0 < n && OwnAt(t, managed, v, p)
  }

  ghost predicate FromMid(t: Tables, managed: set<Ppn>, p: nat, l2: nat, n: nat)
    requires Inv(t)
  {
    || (exists v: Va :: v.l2 == l2 && v.l1 < n && OwnAt(t, managed, v, p))
    || (p in t.role && t.role[p].Low? && t.role[p].l2 == l2 && t.role[p].l1 < n)
  }

  ghost predicate FromRoot(t: Tables, managed: set<Ppn>, p: nat, n: nat)
    requires Inv(t)
  {
    || (exists v: Va :: v.l2 < n && OwnAt(t, managed, v, p))
    || (p in t.role && !t.role[p].Root? && t.role[p].l2 < n)
  }

  lemma {:induction false} LowFacts(t: Tables, managed: set<Ppn>, q: Ppn, l2: nat, l1: nat, n: nat)
    requires Inv(t) && OwnedOnce(t, managed) && q in t.role && t.role[q] == Low(l2, l1) && l2 < ENTRIES && l1 < ENTRIES
    requires n <= ENTRIES
    ensures q in t.mem && |t.mem[q]| == ENTRIES && NoDup(LowFreed(t, q, managed, n))
    ensures forall p: nat :: p in LowFreed(t, q, managed, n) <==> FromLow(t, managed, p, l2, l1, n)
    decreases n
  {
    assert Linked(t, q);
    if n > 0 {
      LowFacts(t, managed, q, l2, l1, n - 1);
      var v := Va(l2, l1, n - 1);
      LowPath(t, q, v);
      var e := t.mem[q][n - 1];
      assert OwnEntry(e, managed) <==> OwnAt(t, managed, v, e.ppn);
      assert forall w: Va, p: nat :: w.l2 == l2 && w.l1 == l1 && w.l0 < n && OwnAt(t, managed, w, p) ==>
        w.l0 < n - 1 || w == v;
      NoDupJoin(LowFreed(t, q, managed, n - 1), if OwnEntry(e, managed) then [e.ppn] else []);
    }
  }

  /** The pages below entry `k` of a level-1 table, then the level-0 table itself. */
  lemma MidSegment(t: Tables, managed: set<Ppn>, m: Ppn, l2: nat, k: nat)
    requires Inv(t) && OwnedOnce(t, managed) && m in t.role && t.role[m] == Mid(l2) && l2 < ENTRIES && k < ENTRIES
    ensures m in t.mem && |t.mem[m]| == ENTRIES
    ensures IsTable(t.mem[m][k]) ==>
              var q := t.mem[m][k].ppn;
              && q in t.role && t.role[q] == Low(l2, k) && q in t.mem && |t.mem[q]| == ENTRIES
              && var seg := LowFreed(t, q, managed, ENTRIES) + [q];
                 NoDup(seg) && forall p: nat :: p in seg <==> FromLow(t, managed, p, l2, k, ENTRIES) || p == q
    ensures !IsTable(t.mem[m][k]) ==>
              forall p: nat :: !FromLow(t, managed, p, l2, k, ENTRIES) && !(p in t.role && t.role[p] == Low(l2, k))
    ensures forall p: nat :: p in t.role && t.role[p] == Low(l2, k) ==> IsTable(t.mem[m][k]) && p == t.mem[m][k].ppn
  {
    assert Linked(t, m);
    forall p: nat | p in t.role && t.role[p] == Low(l2, k) ensures IsTable(t.mem[m][k]) && p == t.mem[m][k].ppn {
      LowPath(t, p, Va(l2, k, 0));
      MidPath(t, m, Va(l2, k, 0));
    }
    if IsTable(t.mem[m][k]) {
      var q := t.mem[m][k].ppn;
      LowFacts(t, managed, q, l2, k, ENTRIES);
      NoDupJoin(LowFreed(t, q, managed, ENTRIES), [q]);
    } else {
      forall p: nat ensures !FromLow(t, managed, p, l2, k, ENTRIES) {
        forall v: Va | v.l2 == l2 && v.l1 == k ensures !OwnAt(t, managed, v, p) {
          if InVa(v) { MidPath(t, m, v); }
        }
      }
    }
  }

  lemma {:induction false} MidFacts(t: Tables, managed: set<Ppn>, m: Ppn, l2: nat, n: nat)
    requires Inv(t) && OwnedOnce(t, managed) && m in t.role && t.role[m] == Mid(l2) && l2 < ENTRIES && n <= ENTRIES
    ensures NoDup(MidFreed(t, m, managed, n))
    ensures forall p: nat :: p in MidFreed(t, m, managed, n) <==> FromMid(t, managed, p, l2, n)
    decreases n
  {
    if n > 0 {
      MidFacts(t, managed, m, l2, n - 1);
      MidSegment(t, managed, m, l2, n - 1);
      forall p: nat ensures FromMid(t, managed, p, l2, n) <==>
          FromMid(t, managed, p, l2, n - 1) || FromLow(t, managed, p, l2, n - 1, ENTRIES) ||
            (p in t.role && t.role[p] == Low(l2, n - 1))
      {
        MidSplit(t, managed, p, l2, n);
      }
      var e := t.mem[m][n - 1];
      var seg := if IsTable(e) then LowFreed(t, e.ppn, managed, ENTRIES) + [e.ppn] else [];
      forall p | p in MidFreed(t, m, managed, n - 1) ensures p !in seg {
        MidApart(t, managed, p, l2, n - 1);
      }
      NoDupJoin(MidFreed(t, m, managed, n - 1), seg);
      assert MidFreed(t, m, managed, n) == MidFreed(t, m, managed, n - 1) + seg;
    }
  }

  lemma MidSplit(t: Tables, managed: set<Ppn>, p: nat, l2: nat, n: nat)
    requires Inv(t) && 0 < n <= ENTRIES
    ensures FromMid(t, managed, p, l2, n) <==>
          FromMid(t, managed, p, l2, n - 1) || FromLow(t, managed, p, l2, n - 1, ENTRIES) ||
            (p in t.role && t.role[p] == Low(l2, n - 1))
  {
    if v: Va :| v.l2 == l2 && v.l1 < n && OwnAt(t, managed, v, p) {
      if v.l1 == n - 1 { assert FromLow(t, managed, p, l2, n - 1, ENTRIES); }
    }
  }

  /** Own pages of different entries differ, and none is a table. */
  lemma MidApart(t: Tables, managed: set<Ppn>, p: nat, l2: nat, k: nat)
    requires Inv(t) && OwnedOnce(t, managed) && FromMid(t, managed, p, l2, k)
    ensures !FromLow(t, managed, p, l2, k, ENTRIES) && !(p in t.role && t.role[p] == Low(l2, k))
  {
    forall w: Va | w.l2 == l2 && w.l1 == k ensures !OwnAt(t, managed, w, p) {
    }
  }

  lemma RootSegment(t: Tables, managed: set<Ppn>, k: nat)
    requires Inv(t) && OwnedOnce(t, managed) && k < ENTRIES
    ensures t.root in t.mem && |t.mem[t.root]| == ENTRIES
    ensures IsTable(t.mem[t.root][k]) ==>
              var m := t.mem[t.root][k].ppn;
              && m in t.role && t.role[m] == Mid(k)
              && var seg := MidFreed(t, m, managed, ENTRIES) + [m];
                 NoDup(seg) && forall p: nat :: p in seg <==> FromMid(t, managed, p, k, ENTRIES) || p == m
    ensures !IsTable(t.mem[t.root][k]) ==>
              forall p: nat :: !FromMid(t, managed, p, k, ENTRIES) && !(p in t.role && t.role[p] == Mid(k))
    ensures forall p: nat :: p in t.role && t.role[p] == Mid(k) ==>
      IsTable(t.mem[t.root][k]) && p == t.mem[t.root][k].ppn
  {
    assert Linked(t, t.root);
    forall p: nat | p in t.role && t.role[p] == Mid(k) ensures IsTable(t.mem[t.root][k]) && p == t.mem[t.root][k].ppn {
      MidPath(t, p, Va(k, 0, 0));
    }
    if IsTable(t.mem[t.root][k]) {
      var m := t.mem[t.root][k].ppn;
      MidFacts(t, managed, m, k, ENTRIES);
      NoDupJoin(MidFreed(t, m, managed, ENTRIES), [m]);
    } else {
      forall p: nat ensures !FromMid(t, managed, p, k, ENTRIES) {
        forall v: Va | v.l2 == k ensures !OwnAt(t, managed, v, p) {
        }
        if p in t.role && t.role[p].Low? && t.role[p].l2 == k {
          assert Hangs(t, p);
          LowPath(t, p, Va(k, t.role[p].l1, 0));
        }
      }
    }
  }

  lemma RootSplit(t: Tables, managed: set<Ppn>, p: nat, n: nat)
    requires Inv(t) && 0 < n <= ENTRIES
    ensures FromRoot(t, managed, p, n) <==>
          FromRoot(t, managed, p, n - 1) || FromMid(t, managed, p, n - 1, ENTRIES) ||
            (p in t.role && t.role[p] == Mid(n - 1))
  {
    if v: Va :| v.l2 < n && OwnAt(t, managed, v, p) {
      if v.l2 == n - 1 { assert FromMid(t, managed, p, n - 1, ENTRIES); }
    }
    if p in t.role && t.role[p].Low? {
      assert Hangs(t, p);
    }
  }

  lemma RootApart(t: Tables, managed: set<Ppn>, p: nat, k: nat)
    requires Inv(t) && OwnedOnce(t, managed) && FromRoot(t, managed, p, k)
    ensures !FromMid(t, managed, p, k, ENTRIES) && !(p in t.role && t.role[p] == Mid(k))
  {
    forall w: Va | w.l2 == k ensures !OwnAt(t, managed, w, p) {
    }
  }

  lemma {:induction false} RootFacts(t: Tables, managed: set<Ppn>, n: nat)
    requires Inv(t) && OwnedOnce(t, managed) && n <= ENTRIES
    ensures NoDup(RootFreed(t, managed, n))
    ensures forall p: nat :: p in RootFreed(t, managed, n) <==> FromRoot(t, managed, p, n)
    decreases n
  {
    if n > 0 {
      RootFacts(t, managed, n - 1);
      RootSegment(t, managed, n - 1);
      forall p: nat ensures FromRoot(t, managed, p, n) <==>
          FromRoot(t, managed, p, n - 1) || FromMid(t, managed, p, n - 1, ENTRIES) ||
            (p in t.role && t.role[p] == Mid(n - 1))
      {
        RootSplit(t, managed, p, n);
      }
      var e := t.mem[t.root][n - 1];
      var seg := if IsTable(e) then MidFreed(t, e.ppn, managed, ENTRIES) + [e.ppn] else [];
      forall p | p in RootFreed(t, managed, n - 1) ensures p !in seg {
        RootApart(t, managed, p, n - 1);
      }
      NoDupJoin(RootFreed(t, managed, n - 1), seg);
      assert RootFreed(t, managed, n) == RootFreed(t, managed, n - 1) + seg;
    }
  }

  /**
    Destroying an address space gives back, each once, exactly its own pages and all its page tables: no
    kernel page, no superpage and no device page is among them.
  */
  lemma DestroyedExactly(t: Tables, managed: set<Ppn>)
    requires Inv(t) && OwnedOnce(t, managed)
    ensures NoDup(Destroyed(t, managed))
    ensures forall p: nat :: p in Destroyed(t, managed) <==> p in t.mem || exists v: Va :: OwnAt(t, managed, v, p)
  {
    RootFacts(t, managed, ENTRIES);
    NoDupJoin(RootFreed(t, managed, ENTRIES), [t.root]);
    forall p: nat | p in t.mem ensures p in Destroyed(t, managed) {
      assert Hangs(t, p);
      if t.role[p].Low? { LowInRange(t, p); }
    }
    forall v: Va, p: nat | OwnAt(t, managed, v, p) ensures p in Destroyed(t, managed) {
      assert FromRoot(t, managed, p, ENTRIES);
    }
  }

  lemma LowInRange(t: Tables, p: nat)
    requires Inv(t) && p in t.role && t.role[p].Low?
    ensures t.role[p].l2 < ENTRIES
  {
    assert Hangs(t, p);
    var m :| m in t.role && m in t.mem && |t.mem[m]| == ENTRIES && t.role[m] == Mid(t.role[p].l2) &&
      t.mem[m][t.role[p].l1] == Pte(p, V);
    assert Hangs(t, m);
  }
}
