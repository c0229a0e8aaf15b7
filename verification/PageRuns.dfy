/** Processes come and go, and every run of the page operations. */
module PageRuns {
  import opened Common
  import opened Pages

  // ----- A process ends -----

  /** The page capabilities of a process from slot `k` on are revoked, as `destroy` does first. */
  function RevokeAll(s: State, pid: nat, k: nat): (r: State)
    requires Inv(s) && Alive(s, pid) && k <= MAX_CAPS
    ensures Inv(r) && Alive(r, pid) && |r.procs| == |s.procs|
    decreases MAX_CAPS - k, pid
  {
    if k == MAX_CAPS then s
    else
      CapRevokeInv(s, pid, k);
      var c := s.procs[pid].caps[k];
      if c.Some? && c.value.ToPage? then
        assert Holds(s, pid, k, c.value.id);
        RevokeKeepsAlive(s, pid, k);
        RevokeAll(CapRevoke(s, pid, k).0, pid, k + 1)
      else RevokeAll(s, pid, k + 1)
  }

  /** Every process but `pid` keeps its capabilities and its mappings. */
  ghost predicate OthersSame(s: State, r: State, pid: nat) {
    |r.procs| == |s.procs| && forall q :: 0 <= q < |s.procs| && q != pid ==> r.procs[q] == s.procs[q]
  }

  lemma RevokeKeepsAlive(s: State, pid: nat, k: nat)
    requires Inv(s) && Alive(s, pid) && k < MAX_CAPS && s.procs[pid].caps[k].Some? && s.procs[pid].caps[k].value.ToPage?
    ensures var r := CapRevoke(s, pid, k).0;
            && Alive(r, pid) && OthersSame(s, r, pid) && |r.procs[pid].caps| == MAX_CAPS && r.procs[pid].caps[k] == None
            && (forall l :: 0 <= l < MAX_CAPS && l != k ==> r.procs[pid].caps[l] == s.procs[pid].caps[l])
  {
    var id := s.procs[pid].caps[k].value.id;
    assert Holds(s, pid, k, id);
    UnmappedMaps(s, id);
  }

  lemma {:induction false} RevokeAllClears(s: State, pid: nat, k: nat)
    requires Inv(s) && Alive(s, pid) && k <= MAX_CAPS
    requires forall l: nat, id: nat :: l < k ==> !Holds(s, pid, l, id)
    ensures forall l: nat, id: nat :: !Holds(RevokeAll(s, pid, k), pid, l, id)
    ensures OthersSame(s, RevokeAll(s, pid, k), pid)
    ensures forall p: nat :: Known(RevokeAll(s, pid, k), p) <==> Known(s, p)
    decreases MAX_CAPS - k
  {
    if k < MAX_CAPS {
      var c := s.procs[pid].caps[k];
      CapRevokeInv(s, pid, k);
      if c.Some? && c.value.ToPage? {
        assert Holds(s, pid, k, c.value.id);
        RevokeKeepsAlive(s, pid, k);
        var r := CapRevoke(s, pid, k).0;
        assert forall l: nat, id: nat :: l < k + 1 ==> !Holds(r, pid, l, id) by {
          forall l: nat, id: nat | l < k + 1 ensures !Holds(r, pid, l, id) {
            assert l < k ==> !Holds(s, pid, l, id);
          }
        }
        RevokeAllClears(r, pid, k + 1);
      } else {
        RevokeAllClears(s, pid, k + 1);
      }
    }
  }

  /** The address space is taken down: every page it still maps goes back, and none of them is free already. */
  function TakenDown(s: State, pid: nat): (r: State)
    requires pid < |s.procs|
  {
    s.(procs := s.procs[pid := Proc(false, seq(MAX_CAPS, i => None), map[])],
      pool := s.pool + s.procs[pid].space.Values)
  }

  lemma TakenDownInv(s: State, pid: nat)
    requires Inv(s) && Alive(s, pid) && forall k: nat, id: nat :: !Holds(s, pid, k, id)
    ensures s.pool !! s.procs[pid].space.Values
    ensures Inv(TakenDown(s, pid)) && forall p: nat :: Known(TakenDown(s, pid), p) <==> Known(s, p)
  {
    var r := TakenDown(s, pid);
    forall p | p in s.procs[pid].space.Values
      ensures p !in s.pool && forall i: nat :: i < |s.pages| && s.pages[i].valid ==> s.pages[i].paddr != p
    {
      var va :| va in s.procs[pid].space && s.procs[pid].space[va] == p;
      assert Maps(s, pid, va, p);
      forall i: nat | i < |s.pages| && s.pages[i].valid ensures s.pages[i].paddr != p {
        assert IsHeld(s, i);
      }
    }
    assert forall q: nat, v: nat, p: nat :: Maps(r, q, v, p) <==> q != pid && Maps(s, q, v, p);
    assert forall q: nat, l: nat, i: nat :: Holds(r, q, l, i) <==> q != pid && Holds(s, q, l, i);
    forall i: nat | i < |r.pages| && r.pages[i].valid ensures IsHeld(r, i) {
      assert IsHeld(s, i);
      var l: nat :| Holds(s, s.pages[i].owner, l, i);
      assert Holds(r, r.pages[i].owner, l, i);
    }
    TakenDownOnce(s, r, pid);
    TakenDownKnown(s, r, pid);
  }

  lemma TakenDownOnce(s: State, r: State, pid: nat)
    requires Inv(s) && pid < |s.procs| && r.pool == s.pool + s.procs[pid].space.Values
    requires forall q: nat, v: nat, p: nat :: Maps(r, q, v, p) <==> q != pid && Maps(s, q, v, p)
    ensures Once(r)
  {
    forall p: nat, a: nat, va: nat | Maps(r, a, va, p) ensures p !in r.pool {
      if p in s.procs[pid].space.Values {
        var v :| v in s.procs[pid].space && s.procs[pid].space[v] == p;
        assert Maps(s, pid, v, p) && Maps(s, a, va, p);
      }
    }
  }

  lemma TakenDownKnown(s: State, r: State, pid: nat)
    requires pid < |s.procs| && r.pages == s.pages && r.pool == s.pool + s.procs[pid].space.Values
    requires forall q: nat, v: nat, p: nat :: Maps(r, q, v, p) <==> q != pid && Maps(s, q, v, p)
    ensures forall p: nat :: Known(r, p) <==> Known(s, p)
  {
    forall p: nat ensures Known(r, p) <==> Known(s, p) {
      if q: nat, v: nat :| Maps(s, q, v, p) {
        if q == pid { assert p in s.procs[pid].space.Values; } else { assert Maps(r, q, v, p); }
      }
      if q: nat, v: nat :| Maps(r, q, v, p) { assert Maps(s, q, v, p); }
      if p in s.procs[pid].space.Values {
        var v :| v in s.procs[pid].space && s.procs[pid].space[v] == p;
        assert Maps(s, pid, v, p);
      }
    }
  }

  /** The page capabilities among `caps`, in order. */
  function PageIds(caps: seq<Option<Cap>>): (r: seq<nat>) {
    if caps == [] then []
    else if caps[0].Some? && caps[0].value.ToPage? then [caps[0].value.id] + PageIds(caps[1..])
    else PageIds(caps[1..])
  }

  lemma RevokedDistinct(s: State, id: nat)
    requires Distinct(s) && id < |s.pages| && s.pages[id].valid
    ensures s.pages[id].paddr !in s.pool && Distinct(Revoked(s, id))
  {
  }

  /** `pages::revoke` for each of `ids`; one that is not registered is skipped. */
  function RevokeIds(s: State, ids: seq<nat>): (r: State)
    ensures |r.procs| == |s.procs|
    decreases ids
  {
    if ids == [] then s
    else if Registered(s, ids[0]) then RevokeIds(Revoked(s, ids[0]), ids[1..])
    else RevokeIds(s, ids[1..])
  }

  /** `destroy`, for a process that shares no memory */
  function Destroy(s: State, pid: nat): (r: State) {
    if !Alive(s, pid) then s else TakenDown(RevokeIds(s, PageIds(s.procs[pid].caps)), pid)
  }

  /** The two states differ at most in the capabilities of `pid`. */
  ghost predicate SameBut(s: State, t: State, pid: nat) {
    && pid < |s.procs| == |t.procs|
    && t == s.(procs := s.procs[pid := s.procs[pid].(caps := t.procs[pid].caps)])
  }

  /** One slot of `RevokeAll` beside the same page of `RevokeIds`. */
  lemma RevokeBeside(s: State, t: State, pid: nat, k: nat, id: nat)
    requires Inv(t) && Alive(t, pid) && Distinct(s) && SameBut(s, t, pid) && Holds(t, pid, k, id)
    ensures id < |s.pages| && s.pages[id].valid && s.pages[id].paddr !in s.pool && Distinct(Revoked(s, id))
    ensures var r := CapRevoke(t, pid, k).0;
            && Inv(r) && Alive(r, pid) && SameBut(Revoked(s, id), r, pid) && |r.procs[pid].caps| == MAX_CAPS
            && r.procs[pid].caps[k + 1..] == t.procs[pid].caps[k + 1..]
  {
    CapRevokeInv(t, pid, k);
    RevokeKeepsAlive(t, pid, k);
    RevokedDistinct(s, id);
    RevokedSameBut(s, t, pid, k, id);
  }

  /**
    `destroy` collects the pages first and clears the slots last, which comes to the same as clearing them one
    by one.
  */
  lemma {:induction false} RevokeIdsAgrees(s: State, t: State, pid: nat, k: nat)
    requires Inv(t) && Alive(t, pid) && Distinct(s) && SameBut(s, t, pid) && k <= MAX_CAPS
    ensures SameBut(RevokeIds(s, PageIds(t.procs[pid].caps[k..])), RevokeAll(t, pid, k), pid)
    decreases MAX_CAPS - k
  {
    if k < MAX_CAPS {
      var caps := t.procs[pid].caps;
      var c, ids := caps[k], PageIds(caps[k + 1..]);
      assert caps[k..][0] == c && caps[k..][1..] == caps[k + 1..];
      if c.Some? && c.value.ToPage? {
        RevokeBeside(s, t, pid, k, c.value.id);
        assert PageIds(caps[k..]) == [c.value.id] + ids && ([c.value.id] + ids)[1..] == ids;
        RevokeIdsAgrees(Revoked(s, c.value.id), CapRevoke(t, pid, k).0, pid, k + 1);
      } else {
        RevokeIdsAgrees(s, t, pid, k + 1);
      }
    }
  }

  lemma RevokedSameBut(s: State, t: State, pid: nat, k: nat, id: nat)
    requires SameBut(s, t, pid) && id < |s.pages| && s.pages[id].paddr !in s.pool && k < |t.procs[pid].caps|
    ensures SameBut(Revoked(s, id), SetCap(Revoked(t, id), pid, k, None), pid)
  {
    var rec := s.pages[id];
    if rec.mapVa.Some? && Alive(s, rec.owner) {
      var r, r' := Revoked(s, id), SetCap(Revoked(t, id), pid, k, None);
      assert r'.procs == r.procs[pid := r.procs[pid].(caps := r'.procs[pid].caps)];
    }
  }

  /**
    A process's end: its pages and private memory go back, each of them exactly once, since none is free
    when it is given back; nothing of any other process changes.
  */
  lemma DestroyInv(s: State, pid: nat)
    requires Inv(s)
    ensures Inv(Destroy(s, pid)) && OthersSame(s, Destroy(s, pid), pid)
    ensures forall p: nat :: Known(Destroy(s, pid), p) <==> Known(s, p)
    ensures Alive(s, pid) ==>
              && !Alive(Destroy(s, pid), pid)
              && (forall k: nat, id: nat :: !Holds(Destroy(s, pid), pid, k, id))
              && (forall va: nat, p: nat :: !Maps(Destroy(s, pid), pid, va, p))
    ensures Alive(s, pid) ==> var r := RevokeIds(s, PageIds(s.procs[pid].caps)); r.pool !! r.procs[pid].space.Values
  {
    if Alive(s, pid) {
      var caps := s.procs[pid].caps;
      assert caps[0..] == caps;
      RevokeIdsAgrees(s, s, pid, 0);
      RevokeAllClears(s, pid, 0);
      TakenDownInv(RevokeAll(s, pid, 0), pid);
      assert TakenDown(RevokeIds(s, PageIds(caps)), pid) == TakenDown(RevokeAll(s, pid, 0), pid);
    }
  }

  /** `create` into slot `pid`, which is new or free again */
  function Create(s: State, pid: nat): (r: State)
    requires pid <= |s.procs| && (pid < |s.procs| ==> !s.procs[pid].alive)
  {
    var p := Proc(true, seq(MAX_CAPS, i => None), map[]);
    if pid < |s.procs| then s.(procs := s.procs[pid := p]) else s.(procs := s.procs + [p])
  }

  lemma CreateInv(s: State, pid: nat)
    requires Inv(s) && pid <= |s.procs| && (pid < |s.procs| ==> !s.procs[pid].alive)
    ensures Inv(Create(s, pid)) && forall p: nat :: Known(Create(s, pid), p) <==> Known(s, p)
    ensures var r := Create(s, pid);
            && Alive(r, pid) && r.procs[pid].space == map[] && (forall k: nat :: !CapTarget(r, pid, k).Found?)
            && r.pages == s.pages && r.pool == s.pool
            && forall q :: 0 <= q < |s.procs| && q != pid ==> r.procs[q] == s.procs[q]
  {
    var r := Create(s, pid);
    assert forall q: nat, v: nat, x: nat :: Maps(r, q, v, x) <==> Maps(s, q, v, x);
    assert forall q: nat, l: nat, i: nat :: Holds(r, q, l, i) <==> Holds(s, q, l, i);
    SameHeld(s, r);
    SameKnown(s, r);
  }

  /** A page of the process's own, as the loader maps them. */
  function MapPrivate(s: State, pid: nat, va: nat, p: nat): (r: State)
    requires pid < |s.procs|
  {
    s.(procs := SetSpace(s, pid, s.procs[pid].space[va := p]).procs, pool := s.pool - {p})
  }

  lemma MapPrivateInv(s: State, pid: nat, va: nat, p: nat)
    requires Inv(s) && Alive(s, pid) && p in s.pool && va !in s.procs[pid].space
    ensures Inv(MapPrivate(s, pid, va, p)) && forall q: nat :: Known(MapPrivate(s, pid, va, p), q) <==> Known(s, q)
  {
    var r := MapPrivate(s, pid, va, p);
    assert forall q: nat, v: nat, x: nat :: Maps(r, q, v, x) <==> Maps(s, q, v, x) || (q == pid && v == va && x == p);
    assert forall q: nat, l: nat, i: nat :: Holds(r, q, l, i) <==> Holds(s, q, l, i);
    SameHeld(s, r);
    forall q: nat ensures Known(r, q) <==> Known(s, q) {
      if a: nat, v: nat :| Maps(s, a, v, q) { assert Maps(r, a, v, q); }
      if q == p { assert Maps(r, pid, va, q); }
    }
  }

  // ----- All runs -----

  datatype Op =
    | DoAlloc(owner: nat, k: nat, p: nat)
    | DoGrant(caller: nat, src: nat, peerSlot: nat, dst: nat)
    | DoMap(caller: nat, k: nat, va: nat, bad: set<nat>)
    | DoConnect(pid: nat, k: nat, peer: nat)
    | DoDuplicate(pid: nat, from: nat, to: nat)
    | DoRevoke(pid: nat, k: nat)
    | DoMapPrivate(pid: nat, va: nat, p: nat)
    | DoCreate(pid: nat)
    | DoDestroy(pid: nat)

  predicate NoPageIn(s: State, pid: nat, k: nat) {
    pid < |s.procs| && k < |s.procs[pid].caps| ==> !(s.procs[pid].caps[k].Some? && s.procs[pid].caps[k].value.ToPage?)
  }

  predicate Enabled(s: State, op: Op) {
    match op
    case DoAlloc(owner, k, p) => Alive(s, owner) && k < MAX_CAPS && |s.procs[owner].caps| == MAX_CAPS &&
      s.procs[owner].caps[k] == None
    case DoConnect(pid, k, _) => Alive(s, pid) && k < MAX_CAPS && NoPageIn(s, pid, k)
    case DoDuplicate(pid, _, to) => NoPageIn(s, pid, to)
    case DoMapPrivate(pid, va, p) => Alive(s, pid) && p in s.pool && va !in s.procs[pid].space
    case DoCreate(pid) => pid <= |s.procs| && (pid < |s.procs| ==> !s.procs[pid].alive)
    case _ => true
  }

  function Step(s: State, op: Op): (r: State)
    requires Sized(s) && Enabled(s, op)
  {
    match op
    case DoAlloc(owner, k, p) => AllocGrant(s, owner, k, p).0
    case DoGrant(caller, src, peerSlot, dst) => MemGrant(s, caller, src, peerSlot, dst).0
    case DoMap(caller, k, va, bad) => MemMap(s, caller, k, va, bad).0
    case DoConnect(pid, k, peer) => SetCap(s, pid, k, Some(ToProc(peer)))
    case DoDuplicate(pid, from, to) => CapDuplicate(s, pid, from, to).0
    case DoRevoke(pid, k) => CapRevoke(s, pid, k).0
    case DoMapPrivate(pid, va, p) => MapPrivate(s, pid, va, p)
    case DoCreate(pid) => Create(s, pid)
    case DoDestroy(pid) => Destroy(s, pid)
  }

  lemma DuplicateKnown(s: State, pid: nat, from: nat, to: nat)
    requires Inv(s) && NoPageIn(s, pid, to)
    ensures var r := CapDuplicate(s, pid, from, to).0; Inv(r) && forall p: nat :: Known(r, p) <==> Known(s, p)
  {
    var (r, e) := CapDuplicate(s, pid, from, to);
    if e.None? { OverwriteInv(s, pid, to, r.procs[pid].caps[to]); }
  }

  lemma StepInv(s: State, op: Op)
    requires Inv(s) && Enabled(s, op)
    ensures Inv(Step(s, op)) && forall p: nat :: Known(Step(s, op), p) <==> Known(s, p)
  {
    match op
    case DoAlloc(owner, k, p) => AllocGrantInv(s, owner, k, p);
    case DoGrant(caller, src, peerSlot, dst) => MemGrantInv(s, caller, src, peerSlot, dst);
    case DoMap(caller, k, va, bad) => MemMapInv(s, caller, k, va, bad);
    case DoConnect(pid, k, peer) => OverwriteInv(s, pid, k, Some(ToProc(peer)));
    case DoDuplicate(pid, from, to) => DuplicateKnown(s, pid, from, to);
    case DoRevoke(pid, k) => CapRevokeInv(s, pid, k);
    case DoMapPrivate(pid, va, p) => MapPrivateInv(s, pid, va, p);
    case DoCreate(pid) => CreateInv(s, pid);
    case DoDestroy(pid) => DestroyInv(s, pid);
  }

  ghost predicate Legal(s: State, ops: seq<Op>)
    requires Inv(s)
    decreases |ops|
  {
    ops != [] ==> Enabled(s, ops[0]) && (StepInv(s, ops[0]); Legal(Step(s, ops[0]), ops[1..]))
  }

  ghost function Run(s: State, ops: seq<Op>): (r: State)
    requires Inv(s) && Legal(s, ops)
    decreases |ops|
  {
    if ops == [] then s
    else
      StepInv(s, ops[0]);
      Run(Step(s, ops[0]), ops[1..])
  }

  /**
    Over every run each registered page has exactly one holder, the registry's owner; it is mapped exactly
    where its record says and nowhere else; and no page is lost or freed twice: free, registered and
    mapped pages are always the same pages together, and a free page is neither registered nor mapped.
  */
  lemma {:induction false} RunInv(s: State, ops: seq<Op>)
    requires Inv(s) && Legal(s, ops)
    ensures Inv(Run(s, ops)) && forall p: nat :: Known(Run(s, ops), p) <==> Known(s, p)
    decreases |ops|
  {
    if ops != [] {
      StepInv(s, ops[0]);
      RunInv(Step(s, ops[0]), ops[1..]);
    }
  }
}
