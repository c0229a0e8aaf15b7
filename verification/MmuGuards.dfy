/** The guard pages of kernel stacks: taken out and put back in any order, by threads that come and go. */
module MmuGuards {
  import opened Common
  import opened MmuModel
  import opened MmuOps
  import opened MmuKernel

  // ----- The upper levels -----

  /** On the way to `w` tables stay, a superpage stays as it is or is split, and none appears. */
  predicate UpperAt(t: Tables, r: Tables, w: Va)
    requires Inv(t) && Inv(r) && InVa(w)
  {
    && (IsTable(Entry2(t, w)) ==>
         Entry2(r, w) == Entry2(t, w) && (Entry1(r, w) == Entry1(t, w) || IsTable(Entry1(r, w))))
    && (!IsTable(Entry2(t, w)) && IsTable(Entry2(r, w)) ==> !IsLeaf(Entry1(r, w)))
  }

  ghost predicate UpperKept(t: Tables, r: Tables)
    requires Inv(t) && Inv(r)
  {
    forall w :: InVa(w) ==> UpperAt(t, r, w)
  }

  lemma UpperTrans(t: Tables, r: Tables, u: Tables)
    requires Inv(t) && Inv(r) && Inv(u) && UpperKept(t, r) && UpperKept(r, u)
    ensures UpperKept(t, u)
  {
    forall w | InVa(w) ensures UpperAt(t, u, w) {
      assert UpperAt(t, r, w) && UpperAt(r, u, w);
    }
  }

  lemma SetLowUpper(t: Tables, q: Ppn, e: Pte, v: Va)
    requires Inv(t) && InVa(v) && q in t.role && t.role[q] == Low(v.l2, v.l1)
    ensures q in t.mem && |t.mem[q]| == ENTRIES && Inv(SetEntry(t, q, v.l0, e)) && UpperKept(t, SetEntry(t, q, v.l0, e))
  {
    SetLow(t, q, e, v);
    var r := SetEntry(t, q, v.l0, e);
    forall w | InVa(w) ensures UpperAt(t, r, w) {
      Path(t, w);
      assert Entry2(r, w) == Entry2(t, w);
    }
  }

  lemma AttachMidUpper(t: Tables, m: Ppn, content: seq<Pte>, v: Va)
    requires Inv(t) && InVa(v) && m in t.role && t.role[m] == Mid(v.l2) && t.pool != [] && |content| == ENTRIES
    requires m in t.mem && |t.mem[m]| == ENTRIES && Inv(Attach(t, m, v.l1, content))
    ensures UpperKept(t, Attach(t, m, v.l1, content))
  {
    var r := Attach(t, m, v.l1, content);
    PoolHead(t);
    assert IsTable(Pte(t.pool[0], V));
    forall w | InVa(w) ensures UpperAt(t, r, w) {
      Path(t, w);
      assert Entry2(r, w) == Entry2(t, w);
      if w.l2 == v.l2 { MidPath(t, m, w); }
    }
  }

  lemma AttachRootUpper(t: Tables, v: Va)
    requires Inv(t) && InVa(v) && !Valid(Entry2(t, v)) && t.pool != []
    ensures t.root in t.mem && |t.mem[t.root]| == ENTRIES && Inv(Attach(t, t.root, v.l2, Zeroed()))
    ensures UpperKept(t, Attach(t, t.root, v.l2, Zeroed()))
  {
    EnsureTableOk(t, t.root, v.l2);
    var r := Attach(t, t.root, v.l2, Zeroed());
    PoolHead(t);
    forall w | InVa(w) ensures UpperAt(t, r, w) {
      Path(t, w);
      if w.l2 == v.l2 { MidPath(r, t.pool[0], w); }
    }
  }

  lemma SplitUpper(t: Tables, v: Va)
    requires Inv(t) && InVa(v)
    ensures Inv(SplitSuperpage(t, v).0) && UpperKept(t, SplitSuperpage(t, v).0)
  {
    SplitSuperpageOk(t, v);
    Path(t, v);
    EnsureTableOk(t, t.root, v.l2);
    var (t1, m) := EnsureTable(t, t.root, v.l2);
    if m.Some? {
      assert Linked(t1, m.value);
      MidPath(t1, m.value, v);
      if !Valid(Entry2(t, v)) {
        AttachRootUpper(t, v);
        NewMidEmpty(t, v);
      } else if IsLeaf(Entry1(t, v)) && t.pool != [] {
        AttachMidUpper(t, m.value, Pieces(Entry1(t, v)), v);
      }
    }
  }

  lemma UnmapUpper(t: Tables, v: Va)
    requires Inv(t) && InVa(v) && !Super(t, v) && Missing(t, v) == 0
    ensures Inv(Unmap4k(t, v).0) && UpperKept(t, Unmap4k(t, v).0)
  {
    Unmap4kOk(t, v);
    if LeafPte(t, v) != EMPTY {
      DescendOk(t, v);
      SetLowUpper(t, Descend(t, v).1.value, EMPTY, v);
    }
  }

  lemma MapUpper(t: Tables, v: Va, ppn: Ppn, flags: bv10)
    requires Inv(t) && InVa(v) && !Super(t, v) && Missing(t, v) == 0
    ensures Inv(Map4k(t, v, ppn, flags).0) && UpperKept(t, Map4k(t, v, ppn, flags).0)
  {
    Map4kOk(t, v, ppn, flags);
    DescendOk(t, v);
    SetLowUpper(t, Descend(t, v).1.value, Pte(ppn, flags), v);
  }

  // ----- Guards -----

  /** The page number of `v` itself: kernel memory is mapped one to one. */
  function Own(v: Va): (n: Ppn)
    requires InVa(v)
  {
    (v.l2 * ENTRIES + v.l1) * ENTRIES + v.l0
  }

  /** A page that is mapped to itself, readable and writable, and if in a superpage then in an aligned one. */
  predicate MayGuard(t: Tables, v: Va)
    requires Inv(t)
  {
    InVa(v) && SplitsWell(t, v) && Translate(t, v) == Some(Xlat(Own(v), LEAF_RW))
  }

  /** A stack gets its guard page, or gives it back. */
  datatype GuardOp = Guard(v: Va) | Unguard(v: Va)

  /** `t0` is the kernel's map before any guard; `out` are the pages that are now taken out. */
  ghost predicate Guarded(t0: Tables, t: Tables, out: set<Va>)
    requires Inv(t0)
  {
    && Inv(t)
    && (forall w :: InVa(w) ==> Translate(t, w) == if w in out then None else Translate(t0, w))
    && (forall w :: InVa(w) && SplitsWell(t0, w) ==> SplitsWell(t, w))
    && (forall v :: v in out ==> MayGuard(t0, v) && !Super(t, v) && Missing(t, v) == 0)
  }

  ghost predicate CanGuard(t0: Tables, out: set<Va>, op: GuardOp)
    requires Inv(t0)
  {
    match op
    case Guard(v) => MayGuard(t0, v) && v !in out
    case Unguard(v) => v in out
  }

  /** The table after the step, and the pages then taken out; where taking out fails the kernel stops. */
  function GuardStep(t: Tables, out: set<Va>, op: GuardOp): (r: (Tables, set<Va>))
    requires Inv(t) && InVa(op.v)
  {
    match op
    case Guard(v) => var (r, ok) := UnmapKernel4k(t, v); (r, if ok then out + {v} else out)
    case Unguard(v) => var (r, ok) := MapKernel4k(t, v, Own(v), LEAF_RW); (r, if ok then out - {v} else out)
  }

  lemma UpperSplits(t0: Tables, t: Tables, r: Tables)
    requires Inv(t0) && Inv(t) && Inv(r) && UpperKept(t, r)
    requires forall w :: InVa(w) && SplitsWell(t0, w) ==> SplitsWell(t, w)
    ensures forall w :: InVa(w) && SplitsWell(t0, w) ==> SplitsWell(r, w)
  {
    forall w | InVa(w) && SplitsWell(t0, w) ensures SplitsWell(r, w) {
      assert UpperAt(t, r, w);
    }
  }

  lemma UpperReaches(t: Tables, r: Tables, v: Va)
    requires Inv(t) && Inv(r) && UpperKept(t, r) && InVa(v) && !Super(t, v) && Missing(t, v) == 0
    ensures !Super(r, v) && Missing(r, v) == 0
  {
    assert UpperAt(t, r, v);
  }

  lemma TakeUpper(t: Tables, v: Va)
    requires Inv(t) && InVa(v) && SplitsWell(t, v)
    ensures Inv(UnmapKernel4k(t, v).0) && UpperKept(t, UnmapKernel4k(t, v).0)
  {
    UnmapKernel4kOk(t, v);
    SplitSuperpageOk(t, v);
    SplitUpper(t, v);
    var (t1, ok) := SplitSuperpage(t, v);
    if ok {
      UnmapUpper(t1, v);
      UpperTrans(t, t1, Unmap4k(t1, v).0);
    }
  }

  lemma GuardKeeps(t0: Tables, t: Tables, out: set<Va>, v: Va)
    requires Inv(t0) && Guarded(t0, t, out) && MayGuard(t0, v) && v !in out
    ensures var (r, out') := GuardStep(t, out, Guard(v)); Guarded(t0, r, out')
  {
    TakeUpper(t, v);
    UnmapKernel4kOk(t, v);
    var (r, out') := GuardStep(t, out, Guard(v));
    UpperSplits(t0, t, r);
    forall w | InVa(w) ensures Translate(r, w) == if w in out' then None else Translate(t0, w) {
      assert Translate(t, w) == if w in out then None else Translate(t0, w);
    }
    forall w | w in out' ensures MayGuard(t0, w) && !Super(r, w) && Missing(r, w) == 0 {
      if w != v { UpperReaches(t, r, w); }
    }
  }

  /** Putting a guard page back cannot fail and takes no memory. */
  lemma UnguardKeeps(t0: Tables, t: Tables, out: set<Va>, v: Va)
    requires Inv(t0) && Guarded(t0, t, out) && v in out
    ensures var (r, out') := GuardStep(t, out, Unguard(v));
            Guarded(t0, r, out') && out' == out - {v} && r.pool == t.pool
  {
    SplitSuperpageOk(t, v);
    Map4kOk(t, v, Own(v), LEAF_RW);
    MapUpper(t, v, Own(v), LEAF_RW);
    var r := Map4k(t, v, Own(v), LEAF_RW).0;
    assert OfEntry0(Pte(Own(v), LEAF_RW)) == Some(Xlat(Own(v), LEAF_RW));
    UpperSplits(t0, t, r);
    forall w | InVa(w) ensures Translate(r, w) == if w in out - {v} then None else Translate(t0, w) {
      assert Translate(t, w) == if w in out then None else Translate(t0, w);
    }
    forall w | w in out - {v} ensures MayGuard(t0, w) && !Super(r, w) && Missing(r, w) == 0 {
      UpperReaches(t, r, w);
    }
  }

  lemma GuardStepKeeps(t0: Tables, t: Tables, out: set<Va>, op: GuardOp)
    requires Inv(t0) && Guarded(t0, t, out) && CanGuard(t0, out, op)
    ensures InVa(op.v) && var (r, out') := GuardStep(t, out, op); Guarded(t0, r, out')
  {
    match op
    case Guard(v) => GuardKeeps(t0, t, out, v);
    case Unguard(v) => UnguardKeeps(t0, t, out, v);
  }

  ghost predicate LegalGuards(t0: Tables, t: Tables, out: set<Va>, ops: seq<GuardOp>)
    requires Inv(t0) && Guarded(t0, t, out)
    decreases |ops|
  {
    ops != [] ==>
      && CanGuard(t0, out, ops[0])
      && (GuardStepKeeps(t0, t, out, ops[0]);
          var (r, out') := GuardStep(t, out, ops[0]);
          LegalGuards(t0, r, out', ops[1..]))
  }

  ghost function GuardRun(t0: Tables, t: Tables, out: set<Va>, ops: seq<GuardOp>): (r: (Tables, set<Va>))
    requires Inv(t0) && Guarded(t0, t, out) && LegalGuards(t0, t, out, ops)
    decreases |ops|
  {
    if ops == [] then (t, out)
    else
      GuardStepKeeps(t0, t, out, ops[0]);
      var (r, out') := GuardStep(t, out, ops[0]);
      GuardRun(t0, r, out', ops[1..])
  }

  /**
    Stacks get and lose their guard pages in any order: at any time exactly the pages that are taken out
    have no translation and every other page has the one it had before the first guard. Once all guards
    are back the kernel's map means what it meant.
  */
  lemma {:induction false} GuardsInterleave(t0: Tables, t: Tables, out: set<Va>, ops: seq<GuardOp>)
    requires Inv(t0) && Guarded(t0, t, out) && LegalGuards(t0, t, out, ops)
    ensures var (r, out') := GuardRun(t0, t, out, ops);
            && Inv(r) && (forall w :: InVa(w) ==> Translate(r, w) == if w in out' then None else Translate(t0, w))
            && (out' == {} ==> SameMeaning(t0, r))
    decreases |ops|
  {
    if ops != [] {
      GuardStepKeeps(t0, t, out, ops[0]);
      var (r, out') := GuardStep(t, out, ops[0]);
      GuardsInterleave(t0, r, out', ops[1..]);
    }
  }

  /** Before the first guard nothing is taken out. */
  lemma NoGuardsYet(t0: Tables)
    requires Inv(t0)
    ensures Guarded(t0, t0, {})
  {
  }

  /** From the kernel's map on: once all guards are back it means what it meant. */
  lemma GuardsComeBack(t0: Tables, ops: seq<GuardOp>)
    requires Inv(t0) && (NoGuardsYet(t0); LegalGuards(t0, t0, {}, ops))
    ensures var (r, out) := (NoGuardsYet(t0); GuardRun(t0, t0, {}, ops)); Inv(r) && (out == {} ==> SameMeaning(t0, r))
  {
    NoGuardsYet(t0);
    GuardsInterleave(t0, t0, {}, ops);
  }
}
