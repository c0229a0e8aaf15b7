/**
  What a caller of the page and capability calls can rely on, said of lookups: which calls succeed, with which
  error the others fail, what a lookup of every slot finds afterwards, and what the registry records.
*/
module PageCalls {
  import opened Common
  import opened Pages

  /** Lookups of all slots but slot `k` of `pid` find what they found. */
  ghost predicate OtherSlotsSame(s: State, r: State, pid: nat, k: nat) {
    Sized(s) && Sized(r) && forall q: nat, l: nat :: (q, l) != (pid, k) ==> CapTarget(r, q, l) == CapTarget(s, q, l)
  }

  ghost predicate SlotsSame(s: State, r: State) {
    Sized(s) && Sized(r) && forall q: nat, l: nat :: CapTarget(r, q, l) == CapTarget(s, q, l)
  }

  /** All records but that of page `id` are as they were. */
  predicate OtherRecordsSame(s: State, r: State, id: nat) {
    |s.pages| <= |r.pages| && forall i :: 0 <= i < |s.pages| && i != id ==> r.pages[i] == s.pages[i]
  }

  lemma UnmappedSlots(s: State, id: nat)
    requires Sized(s) && id < |s.pages|
    ensures SlotsSame(s, Unmapped(s, id)) && Unmapped(s, id).pages == s.pages && |Unmapped(s, id).procs| == |s.procs|
    ensures forall q :: 0 <= q < |s.procs| ==> Unmapped(s, id).procs[q].caps == s.procs[q].caps
  {
  }

  /** A page that a revocation can free. */
  predicate Revocable(s: State, c: Cap) {
    c.ToPage? ==> Registered(s, c.id) && s.pages[c.id].paddr !in s.pool
  }

  /**
    `cap_revoke` empties the slot, whatever it held, and no other. It fails exactly when the slot does not exist or
    is empty, the process is dead, or the page is not registered or free already.
  */
  lemma RevokeEmpties(s: State, pid: nat, k: nat)
    requires Sized(s)
    ensures var (r, e) := CapRevoke(s, pid, k);
            && (e == None <==> CapTarget(s, pid, k).Found? && Revocable(s, CapTarget(s, pid, k).cap))
            && (e == None ==> Sized(r) && CapTarget(r, pid, k) == Missing && OtherSlotsSame(s, r, pid, k))
            && (e == Some(EINVAL) <==> k >= MAX_CAPS)
            && (e == Some(EACCES) <==> k < MAX_CAPS && CapTarget(s, pid, k) == Missing)
  {
    var l := CapTarget(s, pid, k);
    if l.Found? && l.cap.ToPage? && Registered(s, l.cap.id) { UnmappedSlots(s, l.cap.id); }
  }

  /** The freed page goes back to the allocator, its id to the end of the free ids; no other record changes. */
  lemma RevokeFrees(s: State, pid: nat, k: nat, id: nat)
    requires Sized(s) && CapTarget(s, pid, k) == Found(ToPage(id)) && CapRevoke(s, pid, k).1 == None
    ensures var r := CapRevoke(s, pid, k).0;
            && id < |s.pages| == |r.pages| && !r.pages[id].valid && OtherRecordsSame(s, r, id)
            && r.pool == s.pool + {s.pages[id].paddr} && r.freeIds == s.freeIds + [id]
  {
    UnmappedSlots(s, id);
  }

  /**
    `cap_duplicate` puts what the source slot holds into the target slot and changes no other. It succeeds exactly
    for slots that exist and a source that holds something other than a page.
  */
  lemma DuplicateCopies(s: State, pid: nat, from: nat, to: nat)
    requires Sized(s)
    ensures var (r, e) := CapDuplicate(s, pid, from, to);
            var l := CapTarget(s, pid, from);
            && (e == None <==> to < MAX_CAPS && l.Found? && !l.cap.ToPage?)
            && (e == None ==> OtherSlotsSame(s, r, pid, to) && CapTarget(r, pid, to) == l)
            && (e == Some(EACCES) <==> to < MAX_CAPS && l == Missing)
            && r.pages == s.pages && r.pool == s.pool && r.freeIds == s.freeIds
  {
  }

  /**
    A fresh page: it succeeds exactly when the allocator has the page and the registry has room. The page gets the id
    that has been free for longest, or a new one, and is registered to its owner, not mapped, in that slot alone.
  */
  lemma AllocEnters(s: State, owner: nat, k: nat, p: nat)
    requires Inv(s) && Alive(s, owner) && k < MAX_CAPS
    ensures var (r, e) := AllocGrant(s, owner, k, p);
            var id := if s.freeIds == [] then |s.pages| else s.freeIds[0];
            && (e == None <==> p in s.pool && |s.pages| < MAX_PAGES) && (e.Some? ==> e == Some(ENOMEM) && r == s)
            && (e == None ==>
                  && !Registered(s, id) && id < |r.pages| && r.pages[id] == Rec(true, p, owner, None)
                  && OtherRecordsSame(s, r, id) && r.pool == s.pool - {p}
                  && OtherSlotsSame(s, r, owner, k) && CapTarget(r, owner, k) == Found(ToPage(id)))
  {
    if s.freeIds != [] { assert s.freeIds[0] in s.freeIds; }
  }

  /** The page that `mem_grant` hands on and the process it goes to. */
  predicate Grants(s: State, caller: nat, src: nat, peerSlot: nat, dst: nat, id: nat, peer: nat)
    requires Sized(s)
  {
    && CapTarget(s, caller, src) == Found(ToPage(id)) && CapTarget(s, caller, peerSlot) == Found(ToProc(peer))
    && Alive(s, peer) && CapTarget(s, peer, dst) == Missing && dst < MAX_CAPS && Registered(s, id)
  }

  /**
    `mem_grant` succeeds exactly when the source holds a registered page, the second slot a live process, and the
    target slot there exists and is empty. Then the page is in the target slot and not in the source, registered to
    the peer and mapped nowhere; no other slot and no other record changes.
  */
  lemma GrantMoves(s: State, caller: nat, src: nat, peerSlot: nat, dst: nat)
    requires Sized(s)
    ensures var (r, e) := MemGrant(s, caller, src, peerSlot, dst);
            && (e == None <==> exists id: nat, peer: nat :: Grants(s, caller, src, peerSlot, dst, id, peer))
            && (e.Some? ==> r == s)
    ensures forall id: nat, peer: nat :: Grants(s, caller, src, peerSlot, dst, id, peer) ==>
              Granted(s, MemGrant(s, caller, src, peerSlot, dst).0, caller, src, peer, dst, id)
  {
    var (r, e) := MemGrant(s, caller, src, peerSlot, dst);
    var page, peer := CapTarget(s, caller, src), CapTarget(s, caller, peerSlot);
    if e == None { assert Grants(s, caller, src, peerSlot, dst, page.cap.id, peer.cap.pid); }
    forall id: nat, to: nat | Grants(s, caller, src, peerSlot, dst, id, to)
      ensures Granted(s, r, caller, src, to, dst, id)
    {
      GrantedIs(s, Unmapped(s, id), caller, src, peerSlot, to, dst, id);
    }
  }

  lemma GrantedIs(s: State, u: State, caller: nat, src: nat, peerSlot: nat, peer: nat, dst: nat, id: nat)
    requires Sized(s) && Grants(s, caller, src, peerSlot, dst, id, peer) && u == Unmapped(s, id)
    ensures Granted(s, Moved(s, caller, src, peer, dst, id), caller, src, peer, dst, id)
  {
    UnmappedSlots(s, id);
  }

  ghost predicate Granted(s: State, r: State, caller: nat, src: nat, peer: nat, dst: nat, id: nat) {
    && Sized(s) && Sized(r) && id < |s.pages| == |r.pages| && r.pool == s.pool && r.freeIds == s.freeIds
    && r.pages[id] == s.pages[id].(owner := peer, mapVa := None) && OtherRecordsSame(s, r, id)
    && CapTarget(r, caller, src) == Missing && CapTarget(r, peer, dst) == Found(ToPage(id))
    && forall q: nat, l: nat :: (q, l) != (caller, src) && (q, l) != (peer, dst) ==>
         CapTarget(r, q, l) == CapTarget(s, q, l)
  }

  /**
    `mem_map` succeeds exactly when the address is a page below the limit where the caller has nothing mapped and a
    table can be had, and the slot holds a registered page that is not mapped. No slot changes, and only the record of
    the page notes the address.
  */
  lemma MapRecords(s: State, caller: nat, k: nat, va: nat, bad: set<nat>)
    requires Sized(s)
    ensures var (r, e) := MemMap(s, caller, k, va, bad);
            && (e == None <==> exists id: nat :: Mappable(s, caller, k, va, bad, id)) && (e.Some? ==> r == s)
    ensures forall id: nat :: Mappable(s, caller, k, va, bad, id) ==>
              var r := MemMap(s, caller, k, va, bad).0;
              && SlotsSame(s, r) && |r.pages| == |s.pages| && OtherRecordsSame(s, r, id)
              && r.pages[id] == s.pages[id].(mapVa := Some(va)) && r.pool == s.pool && r.freeIds == s.freeIds
  {
    var (r, e) := MemMap(s, caller, k, va, bad);
    if e == None { assert Mappable(s, caller, k, va, bad, CapTarget(s, caller, k).cap.id); }
  }

  predicate Mappable(s: State, caller: nat, k: nat, va: nat, bad: set<nat>, id: nat)
    requires Sized(s)
  {
    && va % PAGE_SIZE == 0 && va < USER_VA_LIMIT && va !in bad && CapTarget(s, caller, k) == Found(ToPage(id))
    && Registered(s, id) && s.pages[id].mapVa == None && va !in s.procs[caller].space
  }
}
