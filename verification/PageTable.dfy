/** The page registry, the capability tables and the address spaces, updated in place. */
module PageObject {
  import opened Common
  import opened Pages
  import opened PageRuns

  class Kernel {
    var procs: seq<Proc>
    var pages: seq<Rec>
    var freeIds: seq<nat>
    var pool: set<nat>

    function St(): (s: State)
      reads this
    {
      State(procs, pages, freeIds, pool)
    }

    /** `pages::alloc`; `p` is the page the allocator hands out, if it is one of its own. */
    method Alloc(owner: nat, p: nat) returns (id: Option<nat>)
      modifies this
      ensures (St(), id) == AllocPage(old(St()), owner, p)
    {
      if p !in pool {
        return None;
      }
      pool := pool - {p};
      if |pages| >= MAX_PAGES {
        pool := pool + {p};
        assert pool == old(pool);
        return None;
      }
      if freeIds != [] && freeIds[0] < |pages| {
        id := Some(freeIds[0]);
        pages := pages[freeIds[0] := Rec(true, p, owner, None)];
        freeIds := freeIds[1..];
      } else {
        id := Some(|pages|);
        pages := pages + [Rec(true, p, owner, None)];
      }
    }

    /** `unmap_4k` on the root table of a process, if it still has one. */
    method Unmap(pid: nat, va: nat)
      modifies this`procs
      ensures procs == if Alive(old(St()), pid) then SetSpace(old(St()), pid, old(procs)[pid].space - {va}).procs
        else old(procs)
    {
      if pid < |procs| && procs[pid].alive {
        procs := procs[pid := procs[pid].(space := procs[pid].space - {va})];
      }
    }

    /** `pages::revoke` */
    method Revoke(id: nat) returns (ok: bool)
      modifies this
      ensures St() == if Registered(old(St()), id) then Revoked(old(St()), id) else old(St())
      ensures ok == (Registered(old(St()), id) && old(pages)[id].paddr !in old(pool))
    {
      if id >= |pages| || !pages[id].valid {
        return false;
      }
      var rec := pages[id];
      pages := pages[id := rec.(valid := false, mapVa := None)];
      freeIds := freeIds + [id];
      if rec.mapVa.Some? {
        Unmap(rec.owner, rec.mapVa.value);
      }
      if rec.paddr in pool {
        assert pool + {rec.paddr} == pool;
        return false;
      }
      pool := pool + {rec.paddr};
      return true;
    }

    /** `pages::grant` */
    method Grant(id: nat, to: nat) returns (ok: bool)
      modifies this
      ensures ok == Registered(old(St()), id)
      ensures St() == if ok then Regranted(old(St()), id, to) else old(St())
    {
      if id >= |pages| || !pages[id].valid {
        return false;
      }
      var rec := pages[id];
      pages := pages[id := rec.(owner := to, mapVa := None)];
      if rec.mapVa.Some? {
        Unmap(rec.owner, rec.mapVa.value);
      }
      return true;
    }

    method SetSlot(pid: nat, k: nat, c: Option<Cap>)
      requires pid < |procs| && k < |procs[pid].caps|
      modifies this`procs
      ensures St() == SetCap(old(St()), pid, k, c)
    {
      procs := procs[pid := procs[pid].(caps := procs[pid].caps[k := c])];
    }

    /** `mem_grant` */
    method GrantPage(caller: nat, src: nat, peerSlot: nat, dst: nat) returns (e: Option<Error>)
      requires Sized(St())
      modifies this
      ensures (St(), e) == MemGrant(old(St()), caller, src, peerSlot, dst)
    {
      var page := CapTarget(St(), caller, src);
      if !page.Found? {
        return Some(Errno(page));
      }
      if !page.cap.ToPage? {
        return Some(EINVAL);
      }
      var peer := CapTarget(St(), caller, peerSlot);
      if !peer.Found? {
        return Some(Errno(peer));
      }
      if !peer.cap.ToProc? {
        return Some(EINVAL);
      }
      if !Alive(St(), peer.cap.pid) {
        return Some(EACCES);
      }
      if dst >= MAX_CAPS {
        return Some(EINVAL);
      }
      if CapTarget(St(), peer.cap.pid, dst).Found? {
        return Some(EEXIST);
      }
      var ok := Grant(page.cap.id, peer.cap.pid);
      if !ok {
        return Some(ENOENT);
      }
      SetSlot(peer.cap.pid, dst, Some(ToPage(page.cap.id)));
      SetSlot(caller, src, None);
      return None;
    }

    /** `mem_map`; `bad` are the addresses for which no page table can be had. */
    method MapPage(caller: nat, k: nat, va: nat, bad: set<nat>) returns (e: Option<Error>)
      requires Sized(St())
      modifies this
      ensures (St(), e) == MemMap(old(St()), caller, k, va, bad)
    {
      if va % PAGE_SIZE != 0 || va >= USER_VA_LIMIT {
        return Some(EINVAL);
      }
      var page := CapTarget(St(), caller, k);
      if !page.Found? {
        return Some(Errno(page));
      }
      if !page.cap.ToPage? {
        return Some(EINVAL);
      }
      var id := page.cap.id;
      if id >= |pages| || !pages[id].valid {
        return Some(ENOENT);
      }
      if pages[id].mapVa.Some? {
        return Some(EEXIST);
      }
      if va in procs[caller].space || va in bad {
        return Some(EINVAL);
      }
      procs := procs[caller := procs[caller].(space := procs[caller].space[va := pages[id].paddr])];
      pages := pages[id := pages[id].(mapVa := Some(va))];
      return None;
    }

    /** `cap_duplicate` */
    method DuplicateCap(pid: nat, from: nat, to: nat) returns (e: Option<Error>)
      requires Sized(St())
      modifies this
      ensures (St(), e) == CapDuplicate(old(St()), pid, from, to)
    {
      if from >= MAX_CAPS || to >= MAX_CAPS {
        return Some(EINVAL);
      }
      var c := CapTarget(St(), pid, from);
      if !c.Found? {
        return Some(EACCES);
      }
      if c.cap.ToPage? {
        return Some(EINVAL);
      }
      SetSlot(pid, to, Some(c.cap));
      return None;
    }

    /** `cap_revoke` */
    method RevokeCap(pid: nat, k: nat) returns (e: Option<Error>)
      requires Sized(St())
      modifies this
      ensures (St(), e) == CapRevoke(old(St()), pid, k)
    {
      var c := CapTarget(St(), pid, k);
      if !c.Found? {
        return Some(Errno(c));
      }
      if c.cap.ToPage? {
        var ok := Revoke(c.cap.id);
        if !ok {
          return Some(ENOENT);
        }
      }
      SetSlot(pid, k, None);
      return None;
    }

    /** The pages a process holds, in slot order. */
    method Collect(pid: nat) returns (ids: seq<nat>)
      requires pid < |procs|
      ensures ids == PageIds(procs[pid].caps)
    {
      ids := [];
      var caps := procs[pid].caps;
      var k: nat := 0;
      while k < |caps|
        invariant k <= |caps| && ids == PageIds(caps[..k])
      {
        assert caps[..k + 1] == caps[..k] + [caps[k]];
        PageIdsSnoc(caps[..k], caps[k]);
        if caps[k].Some? && caps[k].value.ToPage? {
          ids := ids + [caps[k].value.id];
        }
        k := k + 1;
      }
      assert caps[..k] == caps;
    }

    /** `destroy` */
    method DestroyProcess(pid: nat)
      modifies this
      ensures St() == Destroy(old(St()), pid)
    {
      if pid >= |procs| || !procs[pid].alive {
        return;
      }
      var ids := Collect(pid);
      RevokeEach(ids);
      var space := procs[pid].space;
      procs := procs[pid := Proc(false, seq(MAX_CAPS, i => None), map[])];
      pool := pool + space.Values;
    }

    method RevokeEach(ids: seq<nat>)
      modifies this
      ensures St() == RevokeIds(old(St()), ids)
    {
      var k: nat := 0;
      assert ids[0..] == ids;
      while k < |ids|
        invariant k <= |ids|
        invariant RevokeIds(St(), ids[k..]) == RevokeIds(old(St()), ids)
      {
        assert ids[k..][0] == ids[k] && ids[k..][1..] == ids[k + 1..];
        var ok := Revoke(ids[k]);
        k := k + 1;
      }
    }
  }

  lemma {:induction false} PageIdsSnoc(q: seq<Option<Cap>>, c: Option<Cap>)
    ensures PageIds(q + [c]) == PageIds(q) + if c.Some? && c.value.ToPage? then [c.value.id] else []
  {
    if q == [] {
      assert q + [c] == [c];
    } else {
      assert (q + [c])[1..] == q[1..] + [c] && (q + [c])[0] == q[0];
      PageIdsSnoc(q[1..], c);
    }
  }
}
