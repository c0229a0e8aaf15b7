/**
  `mem_map`, `cap_revoke` and `destroy` first read and later write, and other calls come in between: exactly when
  the late writes keep the page invariant, and runs in which they do not. A grant whose peer dies in the middle
  takes the page back.
*/
module PageLate {
  import opened Common
  import opened Pages
  import opened PageRuns
  import opened PageGrants
  import opened PageRaces

  // ----- A mapping that comes late -----

  /** `map_user_page` in the caller's space. */
  predicate Enters(t: State, caller: nat, va: nat, bad: set<nat>) {
    Alive(t, caller) && va !in t.procs[caller].space && va !in bad
  }

  function Entered(t: State, caller: nat, va: nat, p: nat): (r: State)
    requires caller < |t.procs|
  {
    SetSpace(t, caller, t.procs[caller].space[va := p])
  }

  /** `pages::map`; if the page has been mapped or revoked since, the mapping is taken back. */
  function Recorded(t: State, caller: nat, id: nat, va: nat): (r: State)
    requires caller < |t.procs|
  {
    if Registered(t, id) && t.pages[id].mapVa.None? then SetRec(t, id, t.pages[id].(mapVa := Some(va)))
    else SetSpace(t, caller, t.procs[caller].space - {va})
  }

  /** The second half of `mem_map`, for page `id`, whose address was read as `p`. */
  function LateMap(t: State, caller: nat, id: nat, p: nat, va: nat, bad: set<nat>): (r: State) {
    if Enters(t, caller, va, bad) then Recorded(Entered(t, caller, va, p), caller, id, va) else t
  }

  /** With nothing in between it is the whole call. */
  lemma MapsAtOnce(s: State, caller: nat, k: nat, va: nat, bad: set<nat>, id: nat)
    requires Inv(s) && va % PAGE_SIZE == 0 && va < USER_VA_LIMIT && CapTarget(s, caller, k) == Found(ToPage(id))
    requires Registered(s, id) && s.pages[id].mapVa.None?
    ensures MemMap(s, caller, k, va, bad).0 == LateMap(s, caller, id, s.pages[id].paddr, va, bad)
  {
  }

  lemma TakenBack(t: State, caller: nat, id: nat, p: nat, va: nat)
    requires caller < |t.procs| && va !in t.procs[caller].space && !(Registered(t, id) && t.pages[id].mapVa.None?)
    ensures Recorded(Entered(t, caller, va, p), caller, id, va) == t
  {
    var r := Recorded(Entered(t, caller, va, p), caller, id, va);
    assert r.procs[caller].space == t.procs[caller].space;
    assert r.procs == t.procs;
  }

  /**
    The late mapping keeps the invariant exactly when it is not made, is taken back, or the page is still the
    caller's and at the address that was read.
  */
  lemma LateMapIff(t: State, caller: nat, id: nat, p: nat, va: nat, bad: set<nat>)
    requires Inv(t)
    ensures Inv(LateMap(t, caller, id, p, va, bad)) <==>
            || !Enters(t, caller, va, bad) || !Registered(t, id) || t.pages[id].mapVa.Some?
            || (t.pages[id].owner == caller && t.pages[id].paddr == p)
  {
    var r := LateMap(t, caller, id, p, va, bad);
    if Enters(t, caller, va, bad) {
      if !Registered(t, id) || t.pages[id].mapVa.Some? {
        TakenBack(t, caller, id, p, va);
      } else if t.pages[id].owner == caller && t.pages[id].paddr == p {
        MappedInv(t, r, caller, va, id);
      } else {
        WrongPlace(t, r, caller, id, p, va);
      }
    }
  }

  lemma WrongPlace(t: State, r: State, caller: nat, id: nat, p: nat, va: nat)
    requires Inv(t) && Alive(t, caller) && va !in t.procs[caller].space && Registered(t, id) && t.pages[id].mapVa.None?
    requires r == Recorded(Entered(t, caller, va, p), caller, id, va)
    requires t.pages[id].owner != caller || t.pages[id].paddr != p
    ensures Maps(r, caller, va, p) && !Inv(r)
  {
    var owner, pa := t.pages[id].owner, t.pages[id].paddr;
    assert !Maps(t, owner, va, pa);
    assert Registered(r, id) && r.pages[id].mapVa == Some(va) && !Maps(r, owner, va, pa);
  }

  // ----- A revocation that comes late -----

  /** The second half of `cap_revoke` of slot `k`, which was read as page `id`. */
  function LateRevoke(t: State, pid: nat, k: nat, id: nat): (r: State) {
    if Registered(t, id) then Put(Revoked(t, id), pid, k, None) else t
  }

  lemma RevokesAtOnce(s: State, pid: nat, k: nat, id: nat)
    requires Inv(s) && Holds(s, pid, k, id)
    ensures CapRevoke(s, pid, k).0 == LateRevoke(s, pid, k, id)
  {
    UnmappedMaps(s, id);
  }

  /** It keeps the invariant exactly when the page has been revoked already or is still in that slot. */
  lemma LateRevokeIff(t: State, pid: nat, k: nat, id: nat)
    requires Inv(t)
    ensures Inv(LateRevoke(t, pid, k, id)) <==> !Registered(t, id) || Holds(t, pid, k, id)
  {
    if Holds(t, pid, k, id) {
      RevokesAtOnce(t, pid, k, id);
      RevokedInv(t, pid, k, id);
    } else if Registered(t, id) {
      UnmappedMaps(t, id);
      assert IsHeld(t, id);
      var l: nat :| Holds(t, t.pages[id].owner, l, id);
      assert Holds(LateRevoke(t, pid, k, id), t.pages[id].owner, l, id);
    }
  }

  // ----- An end that comes late -----

  /** `destroy` after it has collected the pages `ids`; another `destroy` may have come first. */
  function LateDestroy(t: State, pid: nat, ids: seq<nat>): (r: State) {
    var u := RevokeIds(t, ids);
    if Alive(u, pid) then TakenDown(u, pid) else u
  }

  lemma DestroysAtOnce(s: State, pid: nat)
    requires Alive(s, pid)
    ensures Destroy(s, pid) == LateDestroy(s, pid, PageIds(s.procs[pid].caps))
  {
    RevokeIdsFrame(s, PageIds(s.procs[pid].caps), pid);
  }

  /** Revoking pages changes no slot and no process. */
  lemma {:induction false} RevokeIdsFrame(s: State, ids: seq<nat>, q: nat)
    requires q < |s.procs|
    ensures var r := RevokeIds(s, ids);
            |r.procs| == |s.procs| && r.procs[q].caps == s.procs[q].caps && r.procs[q].alive == s.procs[q].alive
    decreases |ids|
  {
    if ids != [] { RevokeIdsFrame(if Registered(s, ids[0]) then Revoked(s, ids[0]) else s, ids[1..], q); }
  }

  /** Exactly the given pages leave the registry. */
  lemma {:induction false} RevokeIdsRecords(s: State, ids: seq<nat>, x: nat)
    ensures var r := RevokeIds(s, ids);
            && (Registered(r, x) <==> Registered(s, x) && x !in ids) && |r.pages| == |s.pages|
            && (x < |s.pages| ==> r.pages[x].owner == s.pages[x].owner)
    decreases |ids|
  {
    if ids != [] {
      assert x in ids <==> x == ids[0] || x in ids[1..];
      RevokeIdsRecords(if Registered(s, ids[0]) then Revoked(s, ids[0]) else s, ids[1..], x);
    }
  }

  /** The pages that were collected and are still registered are the process's, and it has no others. */
  ghost predicate UpToDate(t: State, pid: nat, ids: seq<nat>) {
    && (forall id: nat :: id in ids && Registered(t, id) ==> Alive(t, pid) && t.pages[id].owner == pid)
    && (forall k: nat, id: nat :: Holds(t, pid, k, id) ==> id in ids)
  }

  lemma {:induction false} RevokeOwned(s: State, t: State, pid: nat, ids: seq<nat>) returns (u: State)
    requires Inv(t) && Alive(t, pid) && Distinct(s) && SameBut(s, t, pid)
    requires forall id: nat :: id in ids && Registered(t, id) ==> t.pages[id].owner == pid
    ensures Inv(u) && Alive(u, pid) && SameBut(RevokeIds(s, ids), u, pid)
    ensures forall k: nat, x: nat :: Holds(u, pid, k, x) ==> Holds(t, pid, k, x) && x !in ids
    decreases |ids|
  {
    if ids == [] {
      u := t;
    } else {
      var id, rest := ids[0], ids[1..];
      assert forall x: nat :: x in ids <==> x == id || x in rest;
      if Registered(t, id) {
        assert IsHeld(t, id);
        var k: nat :| Holds(t, pid, k, id);
        RevokeBeside(s, t, pid, k, id);
        CapRevokeInv(t, pid, k);
        var r := CapRevoke(t, pid, k).0;
        RevokeShrinks(t, pid, k, id);
        u := RevokeOwned(Revoked(s, id), r, pid, rest);
      } else {
        u := RevokeOwned(s, t, pid, rest);
      }
    }
  }

  lemma RevokeShrinks(t: State, pid: nat, k: nat, id: nat)
    requires Inv(t) && Holds(t, pid, k, id)
    ensures var r := CapRevoke(t, pid, k).0;
            && (forall x: nat :: Registered(r, x) ==> Registered(t, x) && r.pages[x].owner == t.pages[x].owner)
            && (forall l: nat, x: nat :: Holds(r, pid, l, x) ==> Holds(t, pid, l, x))
  {
    RevokedHolds(t, pid, k, id);
  }

  lemma {:induction false} RevokeNone(t: State, ids: seq<nat>)
    requires forall id: nat :: id in ids ==> !Registered(t, id)
    ensures RevokeIds(t, ids) == t
    decreases |ids|
  {
    if ids != [] {
      assert ids[0] in ids;
      RevokeNone(t, ids[1..]);
    }
  }

  /**
    The late end keeps the invariant exactly when the collected pages are up to date: none of them has been given
    away, and none has been received since.
  */
  lemma LateDestroyIff(t: State, pid: nat, ids: seq<nat>)
    requires Inv(t)
    ensures Inv(LateDestroy(t, pid, ids)) <==> UpToDate(t, pid, ids)
  {
    if UpToDate(t, pid, ids) {
      if Alive(t, pid) {
        var u := RevokeOwned(t, t, pid, ids);
        RevokeIdsFrame(t, ids, pid);
        TakenDownInv(u, pid);
        assert TakenDown(RevokeIds(t, ids), pid) == TakenDown(u, pid);
      } else {
        RevokeNone(t, ids);
      }
    } else if id: nat :| id in ids && Registered(t, id) && !(Alive(t, pid) && t.pages[id].owner == pid) {
      StillHeld(t, pid, ids, id);
    } else {
      var k: nat, id: nat :| Holds(t, pid, k, id) && id !in ids;
      LeftRegistered(t, pid, ids, k, id);
    }
  }

  /** A page of another process has been revoked, and its capability is still there. */
  lemma StillHeld(t: State, pid: nat, ids: seq<nat>, id: nat)
    requires Inv(t) && id in ids && Registered(t, id) && !(Alive(t, pid) && t.pages[id].owner == pid)
    ensures !Inv(LateDestroy(t, pid, ids))
  {
    assert IsHeld(t, id);
    var q := t.pages[id].owner;
    var l: nat :| Holds(t, q, l, id);
    RevokeIdsFrame(t, ids, q);
    RevokeIdsRecords(t, ids, id);
    if pid < |t.procs| { RevokeIdsFrame(t, ids, pid); }
    assert Holds(LateDestroy(t, pid, ids), q, l, id);
  }

  /** A page of the process is still registered, and nobody holds it. */
  lemma LeftRegistered(t: State, pid: nat, ids: seq<nat>, k: nat, id: nat)
    requires Inv(t) && Holds(t, pid, k, id) && id !in ids
    ensures !Inv(LateDestroy(t, pid, ids))
  {
    RevokeIdsFrame(t, ids, pid);
    RevokeIdsRecords(t, ids, id);
    var r := LateDestroy(t, pid, ids);
    assert Registered(r, id) && r.pages[id].owner == pid && !IsHeld(r, id);
  }

  // ----- A grant whose peer dies -----

  lemma RevokedBeside(s: State, x: nat, id: nat, owner: nat)
    requires x < |s.pages| && id < |s.pages| && x != id
    ensures Revoked(SetRec(s, id, s.pages[id].(owner := owner)), x)
            == SetRec(Revoked(s, x), id, Revoked(s, x).pages[id].(owner := owner))
  {
    var r := SetRec(s, id, s.pages[id].(owner := owner));
    assert Revoked(r, x).pages == SetRec(Revoked(s, x), id, Revoked(s, x).pages[id].(owner := owner)).pages;
  }

  /** Revoking other pages does not depend on whose page `id` is. */
  lemma {:induction false} RevokeIdsBeside(s: State, ids: seq<nat>, id: nat, owner: nat)
    requires id < |s.pages| && id !in ids
    ensures id < |RevokeIds(s, ids).pages|
    ensures RevokeIds(SetRec(s, id, s.pages[id].(owner := owner)), ids)
            == SetRec(RevokeIds(s, ids), id, RevokeIds(s, ids).pages[id].(owner := owner))
    decreases |ids|
  {
    if ids != [] {
      assert ids[0] in ids && id !in ids[1..];
      if Registered(s, ids[0]) {
        RevokedBeside(s, ids[0], id, owner);
        RevokeIdsBeside(Revoked(s, ids[0]), ids[1..], id, owner);
      } else {
        RevokeIdsBeside(s, ids[1..], id, owner);
      }
    }
  }

  /** A page that only loses its mapping. */
  lemma UnmappedOnly(t: State, q: nat, k: nat, id: nat)
    requires Inv(t) && Holds(t, q, k, id)
    ensures Inv(Regranted(t, id, q))
  {
    var r := Regranted(t, id, q);
    UnmappedMaps(t, id);
    assert forall p: nat, l: nat, i: nat :: Holds(r, p, l, i) <==> Holds(t, p, l, i);
    SameHeld(t, r);
    assert Leaves(t, r, id);
  }

  lemma {:induction false} NotAmong(caps: seq<Option<Cap>>, id: nat)
    requires forall k :: 0 <= k < |caps| ==> caps[k] != Some(ToPage(id))
    ensures id !in PageIds(caps)
  {
    if caps != [] { NotAmong(caps[1..], id); }
  }

  /** The page goes back to the caller, its mapping apart, as if it had never been handed over. */
  lemma HandedBack(t: State, f: Flight)
    requires Inv(t) && Holds(t, f.caller, f.src, f.id) && Alive(t, f.peer) && f.peer != f.caller
    ensures var u := Destroy(Regranted(t, f.id, f.peer), f.peer);
            Registered(u, f.id) && Regranted(u, f.id, f.caller) == Destroy(Regranted(t, f.id, f.caller), f.peer)
  {
    var a, b := Regranted(t, f.id, f.peer), Regranted(t, f.id, f.caller);
    RegrantedSlot(t, f.id, f.peer, f.peer);
    RegrantedSlot(t, f.id, f.caller, f.peer);
    var caps := t.procs[f.peer].caps;
    forall k | 0 <= k < |caps| ensures caps[k] != Some(ToPage(f.id)) {
      if caps[k] == Some(ToPage(f.id)) { OneHolder(t, f.peer, k, f.caller, f.src, f.id); }
    }
    NotAmong(caps, f.id);
    assert b == SetRec(a, f.id, a.pages[f.id].(owner := f.caller));
    RevokeIdsBeside(a, PageIds(caps), f.id, f.caller);
    RevokeIdsRecords(a, PageIds(caps), f.id);
    StaysUnmapped(a, PageIds(caps), f.id);
  }

  lemma {:induction false} StaysUnmapped(s: State, ids: seq<nat>, id: nat)
    requires id < |s.pages| && s.pages[id].mapVa == None
    ensures |RevokeIds(s, ids).pages| == |s.pages| && RevokeIds(s, ids).pages[id].mapVa == None
    decreases |ids|
  {
    if ids != [] { StaysUnmapped(if Registered(s, ids[0]) then Revoked(s, ids[0]) else s, ids[1..], id); }
  }

  /**
    The peer dies between the hand-over and the write of its slot: the roll-back of `mem_grant` restores the invariant,
    and the caller holds the page again.
  */
  lemma PeerDies(t: State, f: Flight, via: nat)
    requires Inv(t) && Holds(t, f.caller, f.src, f.id) && Alive(t, f.peer) && f.peer != f.caller
    ensures var u := Destroy(Regranted(t, f.id, f.peer), f.peer);
            && Sized(u) && !Alive(u, f.peer)
            && var (r, j) := Section(u, Job(f, via, Handed)); j == None && Inv(r) && Holds(r, f.caller, f.src, f.id)
  {
    var b := Regranted(t, f.id, f.caller);
    HandedBack(t, f);
    UnmappedOnly(t, f.caller, f.src, f.id);
    DestroyInv(b, f.peer);
    RegrantedSlot(t, f.id, f.caller, f.caller);
    DeadSized(t, f);
  }

  lemma DeadSized(t: State, f: Flight)
    requires Sized(t) && Registered(t, f.id) && Alive(t, f.peer)
    ensures var u := Destroy(Regranted(t, f.id, f.peer), f.peer); Sized(u) && !Alive(u, f.peer)
  {
    var a := Regranted(t, f.id, f.peer);
    forall q | 0 <= q < |t.procs| ensures ProcOk(a.procs[q]) { RegrantedSlot(t, f.id, f.peer, q); }
    RegrantedSlot(t, f.id, f.peer, f.peer);
    RevokeIdsSized(a, PageIds(t.procs[f.peer].caps));
  }

  lemma {:induction false} RevokeIdsSized(s: State, ids: seq<nat>)
    requires Sized(s)
    ensures Sized(RevokeIds(s, ids))
    decreases |ids|
  {
    if ids != [] { RevokeIdsSized(if Registered(s, ids[0]) then Revoked(s, ids[0]) else s, ids[1..]); }
  }

  // ----- It does happen -----

  /** Process 0 has a page and knows process 1, which has nothing. */
  predicate OnePage(s: State) {
    s == State([Running([Some(ToPage(0)), Some(ToProc(1))]), Running([])], [Rec(true, 4096, 0, None)], [], {})
  }

  /** The page has gone to process 1. */
  lemma Given(s: State)
    requires OnePage(s)
    ensures Inv(s) && CapTarget(s, 0, 0) == Found(ToPage(0)) && Registered(s, 0)
    ensures var (t, e) := MemGrant(s, 0, 0, 1, 0);
            && e == None && Inv(t) && Registered(t, 0) && t.pages[0] == Rec(true, 4096, 1, None) && Holds(t, 1, 0, 0)
            && Alive(t, 0) && !Holds(t, 0, 0, 0) && t.procs[0].space == map[] && Alive(t, 1)
  {
    assert forall q: nat, k: nat, id: nat :: Holds(s, q, k, id) <==> k == 0 && q == 0 && id == 0;
    UnmappedInv(s);
    MemGrantInv(s, 0, 0, 1, 0);
  }

  /** `mem_map` has read the page; it is granted away; the mapping is then made in the old owner's space. */
  lemma MappedAfterGrant(s: State, va: nat)
    requires OnePage(s)
    ensures Inv(s) && CapTarget(s, 0, 0) == Found(ToPage(0)) && s.pages[0].paddr == 4096
    ensures var t := MemGrant(s, 0, 0, 1, 0).0;
            var r := LateMap(t, 0, 0, 4096, va, {});
            Inv(t) && Maps(r, 0, va, 4096) && Holds(r, 1, 0, 0) && !Inv(r)
  {
    Given(s);
    var t := MemGrant(s, 0, 0, 1, 0).0;
    WrongPlace(t, LateMap(t, 0, 0, 4096, va, {}), 0, 0, 4096, va);
  }

  /** `cap_revoke` has read the page; it is granted away; then it is freed, while process 1 holds it. */
  lemma RevokedAfterGrant(s: State)
    requires OnePage(s)
    ensures Inv(s) && CapTarget(s, 0, 0) == Found(ToPage(0))
    ensures var t := MemGrant(s, 0, 0, 1, 0).0;
            var r := LateRevoke(t, 0, 0, 0);
            Inv(t) && 4096 in r.pool && Holds(r, 1, 0, 0) && !Inv(r)
  {
    Given(s);
    var t := MemGrant(s, 0, 0, 1, 0).0;
    LateRevokeIff(t, 0, 0, 0);
    UnmappedMaps(t, 0);
  }

  /** `destroy` of process 1 has found no page; it is granted one; then it ends, and nobody holds the page. */
  lemma EndedAfterGrant(s: State)
    requires OnePage(s)
    ensures Inv(s) && PageIds(s.procs[1].caps) == []
    ensures var t := MemGrant(s, 0, 0, 1, 0).0;
            var r := LateDestroy(t, 1, []);
            Inv(t) && Registered(r, 0) && !Alive(r, 1) && (forall q: nat, k: nat :: !Holds(r, q, k, 0)) && !Inv(r)
  {
    Given(s);
    NoPageIds(s.procs[1].caps);
    var t := MemGrant(s, 0, 0, 1, 0).0;
    LateDestroyIff(t, 1, []);
    forall q: nat, k: nat ensures !Holds(LateDestroy(t, 1, []), q, k, 0) {
      if Holds(LateDestroy(t, 1, []), q, k, 0) { OneHolder(t, q, k, 1, 0, 0); }
    }
  }

  lemma {:induction false} NoPageIds(caps: seq<Option<Cap>>)
    requires forall k :: 0 <= k < |caps| ==> caps[k] == None
    ensures PageIds(caps) == []
  {
    if caps != [] { NoPageIds(caps[1..]); }
  }
}
