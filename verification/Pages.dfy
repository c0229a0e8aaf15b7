/**
  Page capabilities: a physical page that is handed around by capability has one holder, is mapped at
  most once, and goes back to the allocator exactly once. Every operation here is one step, that is, a call that
  nothing else interrupts; `PageGrants` has the separate critical sections of a grant.
*/
module Pages {
  import opened Common

  const MAX_PAGES := 64
  const MAX_CAPS := 8
  const PAGE_SIZE := 4096
  const USER_VA_LIMIT: nat := 0x40_0000_0000

  datatype Cap = ToProc(pid: nat) | ToShm(id: nat) | ToPage(id: nat)

  datatype Error = EINVAL | EACCES | ENOENT | ENOMEM | EEXIST

  /** A process: its capability slots and the user pages its address space maps. */
  datatype Proc = Proc(alive: bool, caps: seq<Option<Cap>>, space: map<nat, nat>)

  /** A record of the page registry. */
  datatype Rec = Rec(valid: bool, paddr: nat, owner: nat, mapVa: Option<nat>)

  /** `pool` are the allocator's free pages. */
  datatype State = State(procs: seq<Proc>, pages: seq<Rec>, freeIds: seq<nat>, pool: set<nat>)

  // ----- The invariant -----

  predicate ProcOk(p: Proc) {
    |p.caps| == MAX_CAPS && (!p.alive ==> p.space == map[] && forall k :: 0 <= k < MAX_CAPS ==> p.caps[k] == None)
  }

  ghost predicate Sized(s: State) {
    forall pid :: 0 <= pid < |s.procs| ==> ProcOk(s.procs[pid])
  }

  /** Slot `k` of process `pid` holds the capability for page `id`. */
  predicate Holds(s: State, pid: nat, k: nat, id: nat) {
    pid < |s.procs| && k < |s.procs[pid].caps| && s.procs[pid].caps[k] == Some(ToPage(id))
  }

  /** A page capability is for a registered page of its holder. */
  ghost predicate CapsOk(s: State) {
    forall pid: nat, k: nat, id: nat :: Holds(s, pid, k, id) ==>
      id < |s.pages| && s.pages[id].valid && s.pages[id].owner == pid
  }

  ghost predicate Single(s: State) {
    forall pid: nat, k: nat, l: nat, id: nat :: Holds(s, pid, k, id) && Holds(s, pid, l, id) ==> k == l
  }

  ghost predicate IsHeld(s: State, id: nat)
    requires id < |s.pages|
  {
    exists k: nat :: Holds(s, s.pages[id].owner, k, id)
  }

  ghost predicate AllHeld(s: State) {
    forall id: nat :: id < |s.pages| && s.pages[id].valid ==> IsHeld(s, id)
  }

  /** Registered pages are different ones, and not free. */
  ghost predicate Distinct(s: State) {
    && (forall i: nat, j: nat ::
          i < |s.pages| && j < |s.pages| && s.pages[i].valid && s.pages[j].valid && s.pages[i].paddr == s.pages[j].paddr
          ==> i == j)
    && (forall i: nat :: i < |s.pages| && s.pages[i].valid ==> s.pages[i].paddr !in s.pool)
  }

  /** Process `pid` maps physical page `p` at `va`. */
  predicate Maps(s: State, pid: nat, va: nat, p: nat) {
    pid < |s.procs| && va in s.procs[pid].space && s.procs[pid].space[va] == p
  }

  /** A registered page is mapped exactly where its record says. */
  ghost predicate MapsOk(s: State) {
    forall id: nat, pid: nat, va: nat :: id < |s.pages| && s.pages[id].valid ==>
      (Maps(s, pid, va, s.pages[id].paddr) <==> pid == s.pages[id].owner && s.pages[id].mapVa == Some(va))
  }

  /** No physical page is mapped twice, and mapped pages are not free. */
  ghost predicate Once(s: State) {
    && (forall p: nat, a: nat, va: nat, b: nat, vb: nat :: Maps(s, a, va, p) && Maps(s, b, vb, p) ==>
         a == b && va == vb)
    && (forall p: nat, a: nat, va: nat :: Maps(s, a, va, p) ==> p !in s.pool)
  }

  ghost predicate FreeOk(s: State) {
    NoDup(s.freeIds) && forall id: nat :: id in s.freeIds <==> id < |s.pages| && !s.pages[id].valid
  }

  ghost predicate Inv(s: State) {
    var sized, caps, single, held := Sized(s), CapsOk(s), Single(s), AllHeld(s);
    var distinct, maps, once, free := Distinct(s), MapsOk(s), Once(s), FreeOk(s);
    sized && caps && single && held && distinct && maps && once && free
  }

  /** At most one slot in the whole system holds a given page. */
  lemma OneHolder(s: State, a: nat, k: nat, b: nat, l: nat, id: nat)
    requires Inv(s) && Holds(s, a, k, id) && Holds(s, b, l, id)
    ensures a == b && k == l
  {
  }

  /** All pages the system knows: free, registered or mapped. */
  ghost predicate Known(s: State, p: nat) {
    || p in s.pool
    || (exists id: nat :: id < |s.pages| && s.pages[id].valid && s.pages[id].paddr == p)
    || (exists pid: nat, va: nat :: Maps(s, pid, va, p))
  }

  // ----- Capabilities -----

  datatype Lookup = Found(cap: Cap) | Missing | BadSlot

  predicate Alive(s: State, pid: nat) {
    pid < |s.procs| && s.procs[pid].alive
  }

  /** `cap_target` */
  function CapTarget(s: State, pid: nat, k: nat): (r: Lookup)
    requires Sized(s)
  {
    if k >= MAX_CAPS then BadSlot
    else if !Alive(s, pid) then Missing
    else match s.procs[pid].caps[k]
         case None => Missing
         case Some(cap) => Found(cap)
  }

  function Errno(l: Lookup): (e: Error) {
    if l == Missing then EACCES else EINVAL
  }

  function SetCap(s: State, pid: nat, k: nat, c: Option<Cap>): (r: State)
    requires pid < |s.procs| && k < |s.procs[pid].caps|
  {
    s.(procs := s.procs[pid := s.procs[pid].(caps := s.procs[pid].caps[k := c])])
  }

  function SetRec(s: State, id: nat, rec: Rec): (r: State)
    requires id < |s.pages|
  {
    s.(pages := s.pages[id := rec])
  }

  function SetSpace(s: State, pid: nat, space: map<nat, nat>): (r: State)
    requires pid < |s.procs|
  {
    s.(procs := s.procs[pid := s.procs[pid].(space := space)])
  }

  /** The mapping that a record notes is taken out of its owner's space. */
  function Unmapped(s: State, id: nat): (r: State)
    requires id < |s.pages|
  {
    var rec := s.pages[id];
    if rec.mapVa.Some? && Alive(s, rec.owner) then SetSpace(s, rec.owner, s.procs[rec.owner].space - {rec.mapVa.value})
    else s
  }

  // ----- Operations -----

  /** `pages::alloc` with page `p` from the allocator; a full registry gives the page back. */
  function AllocPage(s: State, owner: nat, p: nat): (r: (State, Option<nat>)) {
    if p !in s.pool || |s.pages| >= MAX_PAGES then (s, None)
    else
      var rec := Rec(true, p, owner, None);
      if s.freeIds != [] && s.freeIds[0] < |s.pages| then
        (SetRec(s, s.freeIds[0], rec).(freeIds := s.freeIds[1..], pool := s.pool - {p}), Some(s.freeIds[0]))
      else
        (s.(pages := s.pages + [rec], pool := s.pool - {p}), Some(|s.pages|))
  }

  /** A fresh page and the grant of its capability into a slot. */
  function AllocGrant(s: State, owner: nat, k: nat, p: nat): (r: (State, Option<Error>))
    requires owner < |s.procs| && k < |s.procs[owner].caps|
  {
    var (r, id) := AllocPage(s, owner, p);
    if id.None? then (s, Some(ENOMEM)) else (SetCap(r, owner, k, Some(ToPage(id.value))), None)
  }

  predicate Registered(s: State, id: nat) {
    id < |s.pages| && s.pages[id].valid
  }

  /** `pages::grant`: the record names a new owner, and the old one's mapping goes. */
  function Regranted(s: State, id: nat, to: nat): (r: State)
    requires id < |s.pages|
  {
    SetRec(Unmapped(s, id), id, s.pages[id].(owner := to, mapVa := None))
  }

  /** `mem_grant`, with nothing else in between */
  function MemGrant(s: State, caller: nat, src: nat, peerSlot: nat, dst: nat): (r: (State, Option<Error>))
    requires Sized(s)
  {
    var page, peer := CapTarget(s, caller, src), CapTarget(s, caller, peerSlot);
    if !page.Found? then (s, Some(Errno(page)))
    else if !page.cap.ToPage? then (s, Some(EINVAL))
    else if !peer.Found? then (s, Some(Errno(peer)))
    else if !peer.cap.ToProc? then (s, Some(EINVAL))
    else if !Alive(s, peer.cap.pid) then (s, Some(EACCES))
    else if dst >= MAX_CAPS then (s, Some(EINVAL))
    else if CapTarget(s, peer.cap.pid, dst).Found? then (s, Some(EEXIST))
    else if !Registered(s, page.cap.id) then (s, Some(ENOENT))
    else (Moved(s, caller, src, peer.cap.pid, dst, page.cap.id), None)
  }

  /** The page changes hands: mapping, record and capability. */
  function Moved(s: State, from: nat, src: nat, to: nat, dst: nat, id: nat): (r: State)
    requires from < |s.procs| && to < |s.procs| && src < |s.procs[from].caps| && dst < |s.procs[to].caps|
    requires id < |s.pages|
  {
    SetCap(SetCap(Regranted(s, id, to), to, dst, Some(ToPage(id))), from, src, None)
  }

  /** `mem_map`; `bad` are the addresses for which no page table can be had */
  function MemMap(s: State, caller: nat, k: nat, va: nat, bad: set<nat>): (r: (State, Option<Error>))
    requires Sized(s)
  {
    var page := CapTarget(s, caller, k);
    if va % PAGE_SIZE != 0 || va >= USER_VA_LIMIT then (s, Some(EINVAL))
    else if !page.Found? then (s, Some(Errno(page)))
    else if !page.cap.ToPage? then (s, Some(EINVAL))
    else if !Registered(s, page.cap.id) then (s, Some(ENOENT))
    else
      var rec := s.pages[page.cap.id];
      if rec.mapVa.Some? then (s, Some(EEXIST))
      else if va in s.procs[caller].space || va in bad then (s, Some(EINVAL))
      else
        var t := SetSpace(s, caller, s.procs[caller].space[va := rec.paddr]);
        (SetRec(t, page.cap.id, rec.(mapVa := Some(va))), None)
  }

  /** `cap_duplicate` */
  function CapDuplicate(s: State, pid: nat, from: nat, to: nat): (r: (State, Option<Error>))
    requires Sized(s)
  {
    if from >= MAX_CAPS || to >= MAX_CAPS then (s, Some(EINVAL))
    else
      var l := CapTarget(s, pid, from);
      if !l.Found? then (s, Some(EACCES))
      else if l.cap.ToPage? then (s, Some(EINVAL))
      else (SetCap(s, pid, to, Some(l.cap)), None)
  }

  /** `pages::revoke`: the page is unmapped, its record freed, the page given back. */
  function Revoked(s: State, id: nat): (r: State)
    requires id < |s.pages|
  {
    var rec := s.pages[id];
    var t := SetRec(Unmapped(s, id), id, rec.(valid := false, mapVa := None));
    t.(freeIds := s.freeIds + [id], pool := s.pool + {rec.paddr})
  }

  /** `cap_revoke`, for process and page capabilities; a page the allocator has already is an error */
  function CapRevoke(s: State, pid: nat, k: nat): (r: (State, Option<Error>))
    requires Sized(s)
  {
    var l := CapTarget(s, pid, k);
    if !l.Found? then (s, Some(Errno(l)))
    else if !l.cap.ToPage? then (SetCap(s, pid, k, None), None)
    else if !Registered(s, l.cap.id) then (s, Some(ENOENT))
    else if s.pages[l.cap.id].paddr in s.pool then (Revoked(s, l.cap.id), Some(ENOENT))
    else (SetCap(Revoked(s, l.cap.id), pid, k, None), None)
  }

  // ----- What the operations change -----

  lemma UnmappedMaps(s: State, id: nat)
    requires Inv(s) && id < |s.pages| && s.pages[id].valid
    ensures var r := Unmapped(s, id);
            && |r.procs| == |s.procs| && r.pages == s.pages && r.freeIds == s.freeIds && r.pool == s.pool && Sized(r)
            && (forall pid: nat, va: nat, p: nat :: Maps(r, pid, va, p) <==>
                 Maps(s, pid, va, p) && p != s.pages[id].paddr)
            && (forall pid :: 0 <= pid < |s.procs| ==>
                 r.procs[pid].caps == s.procs[pid].caps && r.procs[pid].alive == s.procs[pid].alive)
  {
    var rec := s.pages[id];
    assert IsHeld(s, id);
    if rec.mapVa.Some? { assert Maps(s, rec.owner, rec.mapVa.value, rec.paddr); }
  }

  /**
    Everything that depends on who holds what and what is mapped, after page `id` has left the registry or
    changed hands.
  */
  ghost predicate Leaves(s: State, r: State, id: nat) {
    && id < |s.pages| && |r.pages| == |s.pages| && |r.procs| == |s.procs| && Sized(r)
    && (forall i :: 0 <= i < |s.pages| && i != id ==> r.pages[i] == s.pages[i])
    && (forall pid: nat, va: nat, p: nat :: Maps(r, pid, va, p) <==> Maps(s, pid, va, p) && p != s.pages[id].paddr)
  }

  /** Slot `k` of `pid` holds no page, or page `id`. */
  predicate NoOtherPage(s: State, pid: nat, k: nat, id: nat)
    requires pid < |s.procs| && k < |s.procs[pid].caps|
  {
    var c := s.procs[pid].caps[k];
    c.Some? && c.value.ToPage? ==> c.value.id == id
  }

  /** The two slots of a move exist. */
  predicate Slots(s: State, from: nat, src: nat, to: nat, dst: nat) {
    Alive(s, from) && Alive(s, to) && src < |s.procs[from].caps| && dst < |s.procs[to].caps|
  }

  /** One of the two slots holds the page, and the move overwrites no other page. */
  predicate Carries(s: State, from: nat, src: nat, to: nat, dst: nat, id: nat)
    requires Slots(s, from, src, to, dst)
  {
    && (from, src) != (to, dst) && (Holds(s, from, src, id) || Holds(s, to, dst, id))
    && NoOtherPage(s, from, src, id) && NoOtherPage(s, to, dst, id)
  }

  lemma MovedInv(s: State, from: nat, src: nat, to: nat, dst: nat, id: nat)
    requires Inv(s) && Slots(s, from, src, to, dst) && Carries(s, from, src, to, dst, id) && id < |s.pages|
    ensures Inv(Moved(s, from, src, to, dst, id))
    ensures forall p: nat :: Known(Moved(s, from, src, to, dst, id), p) <==> Known(s, p)
  {
    var r := Moved(s, from, src, to, dst, id);
    UnmappedMaps(s, id);
    MovedHolds(s, from, src, to, dst, id);
    assert Leaves(s, r, id);
    assert r.pages[id] == s.pages[id].(owner := to, mapVa := None);
    assert Holds(r, to, dst, id);
    forall i: nat | i < |r.pages| && r.pages[i].valid ensures IsHeld(r, i) {
      if i != id {
        assert IsHeld(s, i);
        var k: nat :| Holds(s, s.pages[i].owner, k, i);
        assert Holds(r, r.pages[i].owner, k, i);
      }
    }
    MovedKnown(s, r, id);
  }

  lemma MovedHolds(s: State, from: nat, src: nat, to: nat, dst: nat, id: nat)
    requires Inv(s) && Slots(s, from, src, to, dst) && Carries(s, from, src, to, dst, id) && id < |s.pages|
    ensures forall pid: nat, k: nat, i: nat :: Holds(Moved(s, from, src, to, dst, id), pid, k, i) <==>
              (i != id && Holds(s, pid, k, i)) || (i == id && pid == to && k == dst)
  {
    UnmappedMaps(s, id);
    var r := Moved(s, from, src, to, dst, id);
    forall pid: nat, k: nat, i: nat
      ensures Holds(r, pid, k, i) <==> (i != id && Holds(s, pid, k, i)) || (i == id && pid == to && k == dst)
    {
      MovedHoldsAt(s, Unmapped(s, id), r, from, src, to, dst, id, pid, k, i);
    }
  }

  lemma MovedHoldsAt(s: State, u: State, r: State, from: nat, src: nat, to: nat, dst: nat, id: nat, pid: nat, k: nat,
          i: nat)
    requires Inv(s) && Slots(s, from, src, to, dst) && Carries(s, from, src, to, dst, id) && id < |s.pages|
    requires |u.procs| == |s.procs| && u.pages == s.pages
    requires forall q :: 0 <= q < |s.procs| ==> u.procs[q].caps == s.procs[q].caps
    requires r == SetCap(SetCap(SetRec(u, id, s.pages[id].(owner := to, mapVa := None)), to, dst, Some(ToPage(id))),
      from, src, None)
    ensures Holds(r, pid, k, i) <==> (i != id && Holds(s, pid, k, i)) || (i == id && pid == to && k == dst)
  {
    if Holds(s, pid, k, id) {
      if Holds(s, from, src, id) { OneHolder(s, pid, k, from, src, id); } else { OneHolder(s, pid, k, to, dst, id); }
    }
  }

  /** A registered page that stays registered keeps the set of known pages. */
  lemma MovedKnown(s: State, r: State, id: nat)
    requires Leaves(s, r, id) && s.pages[id].valid && r.pages[id].valid && r.pages[id].paddr == s.pages[id].paddr
    requires r.pool == s.pool
    ensures forall p: nat :: Known(r, p) <==> Known(s, p)
  {
    forall p: nat ensures Known(r, p) <==> Known(s, p) {
      if p == s.pages[id].paddr {
        assert r.pages[id].paddr == p;
      } else {
        if i: nat :| i < |s.pages| && s.pages[i].valid && s.pages[i].paddr == p { assert r.pages[i].paddr == p; }
        if i: nat :| i < |r.pages| && r.pages[i].valid && r.pages[i].paddr == p { assert s.pages[i].paddr == p; }
        if pid: nat, va: nat :| Maps(s, pid, va, p) { assert Maps(r, pid, va, p); }
        if pid: nat, va: nat :| Maps(r, pid, va, p) { assert Maps(s, pid, va, p); }
      }
    }
  }

  lemma RevokedInv(s: State, pid: nat, k: nat, id: nat)
    requires Inv(s) && Holds(s, pid, k, id) && id < |s.pages|
    ensures k < MAX_CAPS && s.pages[id].paddr !in s.pool && Inv(SetCap(Revoked(s, id), pid, k, None))
    ensures forall p: nat :: Known(SetCap(Revoked(s, id), pid, k, None), p) <==> Known(s, p)
  {
    var r := SetCap(Revoked(s, id), pid, k, None);
    UnmappedMaps(s, id);
    assert Leaves(s, r, id);
    assert forall q: nat, l: nat, i: nat :: Holds(r, q, l, i) <==> i != id && Holds(s, q, l, i) by {
      RevokedHolds(s, pid, k, id);
    }
    forall i: nat | i < |r.pages| && r.pages[i].valid ensures IsHeld(r, i) {
      assert IsHeld(s, i);
      var l: nat :| Holds(s, s.pages[i].owner, l, i);
      assert Holds(r, r.pages[i].owner, l, i);
    }
    NoDupJoin(s.freeIds, [id]);
    RevokedKnown(s, r, id);
  }

  lemma RevokedHolds(s: State, pid: nat, k: nat, id: nat)
    requires Inv(s) && Holds(s, pid, k, id) && id < |s.pages| && s.pages[id].paddr !in s.pool && k < MAX_CAPS
    ensures forall q: nat, l: nat, i: nat :: Holds(SetCap(Revoked(s, id), pid, k, None), q, l, i) <==>
      i != id && Holds(s, q, l, i)
  {
    UnmappedMaps(s, id);
    var u, r := Unmapped(s, id), SetCap(Revoked(s, id), pid, k, None);
    forall q: nat, l: nat, i: nat ensures Holds(r, q, l, i) <==> i != id && Holds(s, q, l, i) {
      assert q < |s.procs| ==> u.procs[q].caps == s.procs[q].caps;
      if Holds(s, q, l, id) { OneHolder(s, q, l, pid, k, id); }
    }
  }

  lemma RevokedKnown(s: State, r: State, id: nat)
    requires Leaves(s, r, id) && s.pages[id].valid && !r.pages[id].valid && r.pool == s.pool + {s.pages[id].paddr}
    ensures forall p: nat :: Known(r, p) <==> Known(s, p)
  {
    forall p: nat ensures Known(r, p) <==> Known(s, p) {
      if p != s.pages[id].paddr {
        if i: nat :| i < |s.pages| && s.pages[i].valid && s.pages[i].paddr == p { assert r.pages[i].paddr == p; }
        if i: nat :| i < |r.pages| && r.pages[i].valid && r.pages[i].paddr == p { assert s.pages[i].paddr == p; }
        if q: nat, va: nat :| Maps(s, q, va, p) { assert Maps(r, q, va, p); }
        if q: nat, va: nat :| Maps(r, q, va, p) { assert Maps(s, q, va, p); }
      }
    }
  }

  // ----- Each operation -----

  /**
    A grant moves the page: afterwards only the peer's slot holds it and nobody maps it, while every other
    capability and mapping stays; failure changes nothing.
  */
  lemma MemGrantInv(s: State, caller: nat, src: nat, peerSlot: nat, dst: nat)
    requires Inv(s)
    ensures var (r, e) := MemGrant(s, caller, src, peerSlot, dst);
            && Inv(r) && (e.Some? ==> r == s) && forall p: nat :: Known(r, p) <==> Known(s, p)
    ensures var (r, e) := MemGrant(s, caller, src, peerSlot, dst);
            e.None? ==>
              exists id: nat, peer: nat :: id < |s.pages| && Holds(s, caller, src, id) &&
                s.procs[caller].caps[peerSlot] == Some(ToProc(peer))
                && Moves(s, r, id, peer, dst)
  {
    if MemGrant(s, caller, src, peerSlot, dst).1.None? {
      var page, peer := CapTarget(s, caller, src), CapTarget(s, caller, peerSlot);
      assert Holds(s, caller, src, page.cap.id);
      MovedInv(s, caller, src, peer.cap.pid, dst, page.cap.id);
      MovedHolds(s, caller, src, peer.cap.pid, dst, page.cap.id);
      UnmappedMaps(s, page.cap.id);
      assert Moves(s, Moved(s, caller, src, peer.cap.pid, dst, page.cap.id), page.cap.id, peer.cap.pid, dst);
    }
  }

  /** Page `id` is held by slot `dst` of `peer` alone and mapped nowhere; all else is as before. */
  ghost predicate Moves(s: State, r: State, id: nat, peer: nat, dst: nat) {
    && id < |s.pages|
    && (forall pid: nat, k: nat, i: nat :: Holds(r, pid, k, i) <==>
         (i != id && Holds(s, pid, k, i)) || (i == id && pid == peer && k == dst))
    && (forall pid: nat, va: nat, p: nat :: Maps(r, pid, va, p) <==> Maps(s, pid, va, p) && p != s.pages[id].paddr)
  }

  /** Revoking a page capability frees the page, which was not free: nobody holds or maps it any more. */
  lemma CapRevokeInv(s: State, pid: nat, k: nat)
    requires Inv(s)
    ensures var (r, e) := CapRevoke(s, pid, k);
            && Inv(r) && (e.Some? ==> r == s) && forall p: nat :: Known(r, p) <==> Known(s, p)
    ensures forall id: nat :: Holds(s, pid, k, id) ==>
              var p, r := s.pages[id].paddr, CapRevoke(s, pid, k).0;
              && p !in s.pool && r.pool == s.pool + {p}
              && (forall q: nat, l: nat :: !Holds(r, q, l, id)) && (forall q: nat, va: nat :: !Maps(r, q, va, p))
  {
    var l := CapTarget(s, pid, k);
    if l.Found? {
      if l.cap.ToPage? {
        assert Holds(s, pid, k, l.cap.id);
        RevokedInv(s, pid, k, l.cap.id);
        RevokedHolds(s, pid, k, l.cap.id);
        UnmappedMaps(s, l.cap.id);
      } else {
        OverwriteInv(s, pid, k, None);
      }
    }
  }

  /** Overwriting a slot that holds no page, with something that is not a page, touches nothing else. */
  lemma OverwriteInv(s: State, pid: nat, k: nat, c: Option<Cap>)
    requires Inv(s) && Alive(s, pid) && k < MAX_CAPS && !(c.Some? && c.value.ToPage?)
    requires !(s.procs[pid].caps[k].Some? && s.procs[pid].caps[k].value.ToPage?)
    ensures Inv(SetCap(s, pid, k, c)) && forall p: nat :: Known(SetCap(s, pid, k, c), p) <==> Known(s, p)
  {
    var r := SetCap(s, pid, k, c);
    assert forall q: nat, l: nat, i: nat :: Holds(r, q, l, i) <==> Holds(s, q, l, i);
    assert forall q: nat, va: nat, p: nat :: Maps(r, q, va, p) <==> Maps(s, q, va, p);
    SameHeld(s, r);
    SameKnown(s, r);
  }

  lemma SameKnown(s: State, r: State)
    requires r.pages == s.pages && r.pool == s.pool
    requires forall q: nat, va: nat, p: nat :: Maps(r, q, va, p) <==> Maps(s, q, va, p)
    ensures forall p: nat :: Known(r, p) <==> Known(s, p)
  {
    forall p: nat ensures Known(r, p) <==> Known(s, p) {
      if q: nat, va: nat :| Maps(s, q, va, p) { assert Maps(r, q, va, p); }
      if q: nat, va: nat :| Maps(r, q, va, p) { assert Maps(s, q, va, p); }
    }
  }

  /**
    Duplication keeps the invariant exactly when it does not overwrite a page capability: the overwritten
    page would be registered but held by nobody.
  */
  lemma CapDuplicateIff(s: State, pid: nat, from: nat, to: nat)
    requires Inv(s)
    ensures var (r, e) := CapDuplicate(s, pid, from, to);
            && (e.Some? ==> r == s)
            && (e.None? ==> (Inv(r) <==> !(s.procs[pid].caps[to].Some? && s.procs[pid].caps[to].value.ToPage?)))
  {
    var (r, e) := CapDuplicate(s, pid, from, to);
    if e.None? {
      var c := s.procs[pid].caps[to];
      if c.Some? && c.value.ToPage? {
        var id := c.value.id;
        assert Holds(s, pid, to, id);
        forall k: nat ensures !Holds(r, pid, k, id) {
          if k != to && Holds(r, pid, k, id) { assert Holds(s, pid, k, id); }
        }
        assert !IsHeld(r, id);
      } else {
        OverwriteInv(s, pid, to, r.procs[pid].caps[to]);
      }
    }
  }

  /** A process that duplicates its first capability over its page: the page has no holder left. */
  lemma OverwriteExample(s: State)
    requires s == State([Proc(true, [Some(ToProc(0)), Some(ToPage(0)), None, None, None, None, None, None], map[])],
                        [Rec(true, 4096, 0, None)], [], {})
    ensures Inv(s) && CapDuplicate(s, 0, 0, 1).1 == None && !Inv(CapDuplicate(s, 0, 0, 1).0)
  {
    var c := s.procs[0].caps;
    assert |c| == MAX_CAPS && c[0] == Some(ToProc(0)) && c[1] == Some(ToPage(0));
    assert c[2] == c[3] == c[4] == c[5] == c[6] == c[7] == None;
    assert Holds(s, 0, 1, 0);
    assert forall pid: nat, k: nat, id: nat :: Holds(s, pid, k, id) ==> pid == 0 && k == 1 && id == 0;
    var id, k: nat := 0, 1;
    assert s.pages[id] == Rec(true, 4096, 0, None);
    assert Holds(s, s.pages[id].owner, k, id);
    assert IsHeld(s, id);
    CapDuplicateIff(s, 0, 0, 1);
  }

  /** A page is mapped where nothing was, and nowhere else; failure changes nothing. */
  lemma MemMapInv(s: State, caller: nat, k: nat, va: nat, bad: set<nat>)
    requires Inv(s)
    ensures var (r, e) := MemMap(s, caller, k, va, bad);
            && Inv(r) && (e.Some? ==> r == s) && forall p: nat :: Known(r, p) <==> Known(s, p)
    ensures var (r, e) := MemMap(s, caller, k, va, bad);
            forall id: nat :: e.None? && Holds(s, caller, k, id) ==>
              && va !in s.procs[caller].space
              && forall q: nat, v: nat, p: nat :: Maps(r, q, v, p) <==>
                 Maps(s, q, v, p) || (q == caller && v == va && p == s.pages[id].paddr)
  {
    var (r, e) := MemMap(s, caller, k, va, bad);
    if e.None? {
      var id := CapTarget(s, caller, k).cap.id;
      assert Holds(s, caller, k, id);
      MappedInv(s, r, caller, va, id);
    }
  }

  lemma MappedInv(s: State, r: State, caller: nat, va: nat, id: nat)
    requires Inv(s) && Alive(s, caller) && id < |s.pages| && s.pages[id].valid && s.pages[id].owner == caller
    requires s.pages[id].mapVa == None
    requires va !in s.procs[caller].space
    requires r == SetRec(SetSpace(s, caller, s.procs[caller].space[va := s.pages[id].paddr]), id,
      s.pages[id].(mapVa := Some(va)))
    ensures Inv(r) && forall p: nat :: Known(r, p) <==> Known(s, p)
  {
    var pa := s.pages[id].paddr;
    assert forall q: nat, v: nat, p: nat :: Maps(r, q, v, p) <==>
      Maps(s, q, v, p) || (q == caller && v == va && p == pa);
    assert forall q: nat, l: nat, i: nat :: Holds(r, q, l, i) <==> Holds(s, q, l, i);
    SameHeld(s, r);
    MappedMaps(s, r, caller, va, id);
    MappedKnown(s, r, caller, va, id);
  }

  lemma SameHeld(s: State, r: State)
    requires AllHeld(s) && |r.pages| == |s.pages|
    requires forall q: nat, l: nat, i: nat :: Holds(r, q, l, i) <==> Holds(s, q, l, i)
    requires forall i :: 0 <= i < |s.pages| ==>
      r.pages[i].valid == s.pages[i].valid && r.pages[i].owner == s.pages[i].owner
    ensures AllHeld(r)
  {
    forall i: nat | i < |r.pages| && r.pages[i].valid ensures IsHeld(r, i) {
      assert IsHeld(s, i);
      var l: nat :| Holds(s, s.pages[i].owner, l, i);
      assert Holds(r, r.pages[i].owner, l, i);
    }
  }

  /** Page `id` is mapped at one place more, where its record says. */
  ghost predicate MapsMore(s: State, r: State, caller: nat, va: nat, id: nat) {
    && id < |s.pages| == |r.pages| && r.pool == s.pool
    && r.pages == s.pages[id := s.pages[id].(mapVa := Some(va))]
    && forall q: nat, v: nat, p: nat :: Maps(r, q, v, p) <==>
       Maps(s, q, v, p) || (q == caller && v == va && p == s.pages[id].paddr)
  }

  lemma MappedMaps(s: State, r: State, caller: nat, va: nat, id: nat)
    requires MapsMore(s, r, caller, va, id) && Distinct(s) && MapsOk(s) && Once(s)
    requires s.pages[id].valid && s.pages[id].owner == caller && s.pages[id].mapVa == None
    ensures MapsOk(r) && Once(r)
  {
  }

  lemma MappedKnown(s: State, r: State, caller: nat, va: nat, id: nat)
    requires MapsMore(s, r, caller, va, id) && s.pages[id].valid
    ensures forall p: nat :: Known(r, p) <==> Known(s, p)
  {
    forall p: nat ensures Known(r, p) <==> Known(s, p) {
      if q: nat, v: nat :| Maps(s, q, v, p) { assert Maps(r, q, v, p); }
      if i: nat :| i < |s.pages| && s.pages[i].valid && s.pages[i].paddr == p { assert r.pages[i].paddr == p; }
      if i: nat :| i < |r.pages| && r.pages[i].valid && r.pages[i].paddr == p { assert s.pages[i].paddr == p; }
      if q: nat, v: nat :| Maps(r, q, v, p) {
        if !Maps(s, q, v, p) { assert s.pages[id].paddr == p; }
      }
    }
  }

  /** The record and slot of a page that enters the registry under `id`. */
  lemma EnteredInv(s: State, r: State, owner: nat, k: nat, p: nat, id: nat)
    requires Inv(s) && Alive(s, owner) && k < MAX_CAPS && s.procs[owner].caps[k] == None && p in s.pool
    requires id <= |s.pages|
    requires id < |s.pages| ==> !s.pages[id].valid
    requires r.procs == SetCap(s, owner, k, Some(ToPage(id))).procs && r.pool == s.pool - {p} && FreeOk(r)
    requires |r.pages| == (if id < |s.pages| then |s.pages| else |s.pages| + 1)
    requires r.pages[id] == Rec(true, p, owner, None)
    requires forall i :: 0 <= i < |s.pages| && i != id ==> r.pages[i] == s.pages[i]
    ensures Inv(r) && forall q: nat :: Known(r, q) <==> Known(s, q)
  {
    assert forall q: nat, v: nat, x: nat :: Maps(r, q, v, x) <==> Maps(s, q, v, x);
    assert forall q: nat, l: nat, i: nat :: Holds(r, q, l, i) <==>
      Holds(s, q, l, i) || (q == owner && l == k && i == id);
    assert Holds(r, owner, k, id);
    forall i: nat | i < |r.pages| && r.pages[i].valid ensures IsHeld(r, i) {
      if i != id {
        assert IsHeld(s, i);
        var l: nat :| Holds(s, s.pages[i].owner, l, i);
        assert Holds(r, r.pages[i].owner, l, i);
      }
    }
    forall q: nat ensures Known(r, q) <==> Known(s, q) {
      if a: nat, v: nat :| Maps(s, a, v, q) { assert Maps(r, a, v, q); }
      if a: nat, v: nat :| Maps(r, a, v, q) { assert Maps(s, a, v, q); }
      if i: nat :| i < |s.pages| && s.pages[i].valid && s.pages[i].paddr == q { assert r.pages[i].paddr == q; }
      if q == p { assert r.pages[id].paddr == q; }
    }
  }

  /** A fresh page enters the registry and one slot. */
  lemma AllocGrantInv(s: State, owner: nat, k: nat, p: nat)
    requires Inv(s) && Alive(s, owner) && k < MAX_CAPS && s.procs[owner].caps[k] == None
    ensures var (r, e) := AllocGrant(s, owner, k, p);
            && Inv(r) && (e.Some? ==> r == s) && forall q: nat :: Known(r, q) <==> Known(s, q)
  {
    var (r, e) := AllocGrant(s, owner, k, p);
    if e.None? {
      if s.freeIds != [] {
        var id := s.freeIds[0];
        assert id in s.freeIds && forall x :: x in s.freeIds <==> x == id || x in s.freeIds[1..];
        EnteredInv(s, r, owner, k, p, id);
      } else {
        EnteredInv(s, r, owner, k, p, |s.pages|);
      }
    }
  }
}
