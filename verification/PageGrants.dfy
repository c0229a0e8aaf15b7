/**
  `mem_grant` as the chain of separate critical sections it is: any number of grants are in progress at
  once, their sections interleave, and other operations come in between. A grant works on what it read
  earlier. If between its checks and its writes no other call uses its source slot or its destination slot,
  every page keeps one holder.
*/
module PageGrants {
  import opened Common
  import opened Pages
  import opened PageRuns

  /** What a grant has found out: the page `id` in slot `src` of `caller` is to go to slot `dst` of `peer`. */
  datatype Flight = Flight(caller: nat, src: nat, peer: nat, dst: nat, id: nat)

  /** How far a grant has come: four reads, then the registry, the peer's slot and the caller's slot. */
  datatype Stage = SawPage | SawPeer | SawAlive | Ready | Handed | Placed

  /** A grant in progress; `via` is the caller's slot that names the peer. */
  datatype Job = Job(f: Flight, via: nat, at: Stage)

  datatype Mach = Mach(s: State, jobs: seq<Job>)

  // ----- The sections -----

  /** `grant_typed_cap` and `clear_cap`: nothing happens to a process that is gone */
  function Put(s: State, pid: nat, k: nat, c: Option<Cap>): (r: State) {
    if Alive(s, pid) && k < |s.procs[pid].caps| then SetCap(s, pid, k, c) else s
  }

  /** The next section of a grant, and where it leaves the grant; `None` is its end. */
  function Section(s: State, j: Job): (r: (State, Option<Job>))
    requires Sized(s)
  {
    var f := j.f;
    match j.at
    case SawPage =>
      var l := CapTarget(s, f.caller, j.via);
      (s, if l.Found? && l.cap.ToProc? then Some(Job(f.(peer := l.cap.pid), j.via, SawPeer)) else None)
    case SawPeer => (s, if Alive(s, f.peer) && f.dst < MAX_CAPS then Some(j.(at := SawAlive)) else None)
    case SawAlive => (s, if CapTarget(s, f.peer, f.dst).Found? then None else Some(j.(at := Ready)))
    case Ready => if Registered(s, f.id) then (Regranted(s, f.id, f.peer), Some(j.(at := Handed))) else (s, None)
    case Handed =>
      if Alive(s, f.peer) then (Put(s, f.peer, f.dst, Some(ToPage(f.id))), Some(j.(at := Placed)))
      else (if Registered(s, f.id) then Regranted(s, f.id, f.caller) else s, None)
    case Placed => (Put(s, f.caller, f.src, None), None)
  }

  datatype Move =
    | Begin(caller: nat, src: nat, via: nat, dst: nat)
    | Advance(i: nat)
    | Whole(op: Op)

  predicate CanMove(m: Mach, move: Move) {
    match move
    case Begin(_, _, _, _) => true
    case Advance(i) => i < |m.jobs|
    case Whole(op) => Enabled(m.s, op)
  }

  /** The grants after one has gone on; they are listed in the order in which they handed the page over. */
  function Replaced(jobs: seq<Job>, i: nat, j: Option<Job>): (r: seq<Job>)
    requires i < |jobs|
  {
    var rest := jobs[..i] + jobs[i + 1..];
    match j
    case None => rest
    case Some(job) => if job.at == Handed then rest + [job] else jobs[i := job]
  }

  function Next(m: Mach, move: Move): (r: Mach)
    requires Sized(m.s) && CanMove(m, move)
  {
    match move
    case Begin(caller, src, via, dst) =>
      var l := CapTarget(m.s, caller, src);
      if l.Found? && l.cap.ToPage? then
        m.(jobs := m.jobs + [Job(Flight(caller, src, 0, dst, l.cap.id), via, SawPage)])
      else m
    case Advance(i) =>
      var (s, j) := Section(m.s, m.jobs[i]);
      Mach(s, Replaced(m.jobs, i, j))
    case Whole(op) => m.(s := Step(m.s, op))
  }

  // ----- What is still to come -----

  /** The slots a grant will yet write. */
  function Pending(j: Job): (r: set<(nat, nat)>) {
    match j.at
    case Handed => {(j.f.caller, j.f.src), (j.f.peer, j.f.dst)}
    case Placed => {(j.f.caller, j.f.src)}
    case _ => {}
  }

  /** The slots a grant relies on or will yet write. */
  function Uses(j: Job): (r: set<(nat, nat)>) {
    match j.at
    case SawPage | Placed => {(j.f.caller, j.f.src)}
    case _ => {(j.f.caller, j.f.src), (j.f.peer, j.f.dst)}
  }

  /** The state after the remaining writes of a grant that has handed its page over. */
  function Finished(s: State, j: Job): (r: State) {
    var f := j.f;
    match j.at
    case Handed => Put(Put(s, f.peer, f.dst, Some(ToPage(f.id))), f.caller, f.src, None)
    case Placed => Put(s, f.caller, f.src, None)
    case _ => s
  }

  /** The state after the remaining writes of all grants. */
  function Settled(s: State, jobs: seq<Job>): (r: State)
    decreases |jobs|, s
  {
    if jobs == [] then s else Finished(Settled(s, jobs[..|jobs| - 1]), jobs[|jobs| - 1])
  }

  // ----- Writes to different slots -----

  lemma PutPut(s: State, p: nat, k: nat, c: Option<Cap>, q: nat, l: nat, d: Option<Cap>)
    requires p != q || k != l
    ensures Put(Put(s, p, k, c), q, l, d) == Put(Put(s, q, l, d), p, k, c)
  {
    var a, b := Put(Put(s, p, k, c), q, l, d), Put(Put(s, q, l, d), p, k, c);
    if Alive(s, p) && Alive(s, q) && p == q {
      var caps := s.procs[p].caps;
      if k < |caps| && l < |caps| { assert caps[k := c][l := d] == caps[l := d][k := c]; }
    }
    assert a.procs == b.procs;
  }

  lemma PutFinished(s: State, q: nat, k: nat, c: Option<Cap>, j: Job)
    requires (q, k) !in Pending(j)
    ensures Finished(Put(s, q, k, c), j) == Put(Finished(s, j), q, k, c)
  {
    var f := j.f;
    if j.at == Handed {
      PutPut(s, q, k, c, f.peer, f.dst, Some(ToPage(f.id)));
      PutPut(Put(s, f.peer, f.dst, Some(ToPage(f.id))), q, k, c, f.caller, f.src, None);
    } else if j.at == Placed {
      PutPut(s, q, k, c, f.caller, f.src, None);
    }
  }

  ghost predicate NonePending(jobs: seq<Job>, q: nat, k: nat) {
    forall i :: 0 <= i < |jobs| ==> (q, k) !in Pending(jobs[i])
  }

  lemma {:induction false} SettledPut(s: State, jobs: seq<Job>, q: nat, k: nat, c: Option<Cap>)
    requires NonePending(jobs, q, k)
    ensures Settled(Put(s, q, k, c), jobs) == Put(Settled(s, jobs), q, k, c)
    decreases |jobs|
  {
    if jobs != [] {
      var n := |jobs| - 1;
      SettledPut(s, jobs[..n], q, k, c);
      PutFinished(Settled(s, jobs[..n]), q, k, c, jobs[n]);
    }
  }

  lemma PutRegranted(s: State, id: nat, to: nat, q: nat, k: nat, c: Option<Cap>)
    requires id < |s.pages|
    ensures Regranted(Put(s, q, k, c), id, to) == Put(Regranted(s, id, to), q, k, c)
  {
    PutUnmapped(s, id, q, k, c);
  }

  lemma PutUnmapped(s: State, id: nat, q: nat, k: nat, c: Option<Cap>)
    requires id < |s.pages|
    ensures Unmapped(Put(s, q, k, c), id) == Put(Unmapped(s, id), q, k, c)
  {
    assert Unmapped(Put(s, q, k, c), id).procs == Put(Unmapped(s, id), q, k, c).procs;
  }

  lemma {:induction false} SettledRegranted(s: State, jobs: seq<Job>, id: nat, to: nat)
    requires id < |s.pages|
    ensures Settled(s, jobs).pages == s.pages
    ensures Settled(Regranted(s, id, to), jobs) == Regranted(Settled(s, jobs), id, to)
    decreases |jobs|
  {
    if jobs != [] {
      var n := |jobs| - 1;
      SettledRegranted(s, jobs[..n], id, to);
      var t, f := Settled(s, jobs[..n]), jobs[n].f;
      PutRegranted(t, id, to, f.caller, f.src, None);
      PutRegranted(t, id, to, f.peer, f.dst, Some(ToPage(f.id)));
      PutRegranted(Put(t, f.peer, f.dst, Some(ToPage(f.id))), id, to, f.caller, f.src, None);
    }
  }

  /** Everything but the capabilities is the same in the two states. */
  ghost predicate SameBase(s: State, t: State) {
    && t.pages == s.pages && t.freeIds == s.freeIds && t.pool == s.pool && |t.procs| == |s.procs|
    && forall q :: 0 <= q < |s.procs| ==>
         && t.procs[q].alive == s.procs[q].alive && t.procs[q].space == s.procs[q].space
         && |t.procs[q].caps| == |s.procs[q].caps| && (!s.procs[q].alive ==> t.procs[q] == s.procs[q])
  }

  /** Completing the grants writes the slots that are pending and nothing else. */
  lemma {:induction false} SettledFrame(s: State, jobs: seq<Job>)
    ensures SameBase(s, Settled(s, jobs))
    ensures Sized(s) <==> Sized(Settled(s, jobs))
    decreases |jobs|
  {
    if jobs != [] { SettledFrame(s, jobs[..|jobs| - 1]); }
  }

  lemma {:induction false} SettledSlot(s: State, jobs: seq<Job>, q: nat, k: nat)
    requires NonePending(jobs, q, k) && q < |s.procs| && k < |s.procs[q].caps|
    ensures SameBase(s, Settled(s, jobs)) && Settled(s, jobs).procs[q].caps[k] == s.procs[q].caps[k]
    decreases |jobs|
  {
    if jobs != [] {
      var n := |jobs| - 1;
      SettledFrame(s, jobs[..n]);
      SettledSlot(s, jobs[..n], q, k);
    }
  }

  // ----- The list of grants -----

  lemma {:induction false} SettledSwap(s: State, jobs: seq<Job>, i: nat, j: Job)
    requires i < |jobs| && Pending(jobs[i]) == Pending(j) == {}
    ensures Settled(s, jobs[i := j]) == Settled(s, jobs)
    decreases |jobs|
  {
    var n := |jobs| - 1;
    if i == n {
      assert jobs[i := j][..n] == jobs[..n];
    } else {
      assert jobs[i := j][..n] == jobs[..n][i := j];
      SettledSwap(s, jobs[..n], i, j);
    }
  }

  lemma {:induction false} SettledDrop(s: State, jobs: seq<Job>, i: nat)
    requires i < |jobs| && Pending(jobs[i]) == {}
    ensures Settled(s, jobs[..i] + jobs[i + 1..]) == Settled(s, jobs)
    decreases |jobs|
  {
    var n := |jobs| - 1;
    var rest := jobs[..i] + jobs[i + 1..];
    if i == n {
      assert rest == jobs[..n];
    } else {
      assert rest[..n - 1] == jobs[..n][..i] + jobs[..n][i + 1..] && rest[n - 1] == jobs[n];
      SettledDrop(s, jobs[..n], i);
    }
  }

  /** The slots of two grants in progress differ. */
  ghost predicate AllApart(jobs: seq<Job>) {
    forall i, l :: 0 <= i < l < |jobs| ==> Uses(jobs[i]) !! Uses(jobs[l])
  }

  lemma UsesPending(jobs: seq<Job>, i: nat, n: nat, q: nat, k: nat)
    requires AllApart(jobs) && i < |jobs| && n <= i && (q, k) in Uses(jobs[i])
    ensures NonePending(jobs[..n], q, k)
  {
    forall l | 0 <= l < n ensures (q, k) !in Pending(jobs[..n][l]) {
      assert Uses(jobs[l]) !! Uses(jobs[i]) && Pending(jobs[l]) <= Uses(jobs[l]);
    }
  }

  /** Writing the peer's slot was still to come: the settled state does not change. */
  lemma {:induction false} SettledPlace(s: State, jobs: seq<Job>, i: nat)
    requires i < |jobs| && jobs[i].at == Handed && AllApart(jobs)
    ensures var f := jobs[i].f;
            Settled(Put(s, f.peer, f.dst, Some(ToPage(f.id))), jobs[i := jobs[i].(at := Placed)]) == Settled(s, jobs)
    decreases |jobs|
  {
    var n, f, j := |jobs| - 1, jobs[i].f, jobs[i].(at := Placed);
    if i == n {
      assert jobs[i := j][..n] == jobs[..n];
      UsesPending(jobs, n, n, f.peer, f.dst);
      SettledPut(s, jobs[..n], f.peer, f.dst, Some(ToPage(f.id)));
    } else {
      assert jobs[i := j][..n] == jobs[..n][i := j];
      assert AllApart(jobs[..n]);
      SettledPlace(s, jobs[..n], i);
    }
  }

  /** And so was clearing the caller's slot. */
  lemma {:induction false} SettledClear(s: State, jobs: seq<Job>, i: nat)
    requires i < |jobs| && jobs[i].at == Placed && AllApart(jobs)
    ensures Settled(Put(s, jobs[i].f.caller, jobs[i].f.src, None), jobs[..i] + jobs[i + 1..]) == Settled(s, jobs)
    decreases |jobs|
  {
    var n, f, rest := |jobs| - 1, jobs[i].f, jobs[..i] + jobs[i + 1..];
    if i == n {
      assert rest == jobs[..n];
      UsesPending(jobs, n, n, f.caller, f.src);
      SettledPut(s, jobs[..n], f.caller, f.src, None);
    } else {
      assert rest[..n - 1] == jobs[..n][..i] + jobs[..n][i + 1..] && rest[n - 1] == jobs[n];
      assert AllApart(jobs[..n]);
      SettledClear(s, jobs[..n], i);
    }
  }

  /** Handing the page over is the whole move, for the settled state: the rest only catches up. */
  lemma SettledHand(s: State, jobs: seq<Job>, i: nat)
    requires i < |jobs| && jobs[i].at == Ready && Registered(s, jobs[i].f.id)
    ensures SameBase(s, Settled(s, jobs))
    ensures var f, t, r := jobs[i].f, Settled(s, jobs), Replaced(jobs, i, Some(jobs[i].(at := Handed)));
            Settled(Regranted(s, f.id, f.peer), r) == Finished(Regranted(t, f.id, f.peer), jobs[i].(at := Handed))
  {
    var f, j, rest := jobs[i].f, jobs[i].(at := Handed), jobs[..i] + jobs[i + 1..];
    SettledFrame(s, jobs);
    SettledDrop(s, jobs, i);
    SettledRegranted(s, rest, f.id, f.peer);
    assert (rest + [j])[..|rest|] == rest;
  }

  // ----- Other operations in between -----

  /** The operation does not read or write slot `k` of `q`, nor end or start `q`. */
  predicate Avoids(op: Op, q: nat, k: nat) {
    match op
    case DoAlloc(owner, l, _) => (owner, l) != (q, k)
    case DoGrant(_, _, _, _) => false
    case DoMap(caller, l, _, _) => (caller, l) != (q, k)
    case DoConnect(pid, l, _) => (pid, l) != (q, k)
    case DoDuplicate(pid, from, to) => (pid, from) != (q, k) && (pid, to) != (q, k)
    case DoRevoke(pid, l) => (pid, l) != (q, k)
    case DoMapPrivate(_, _, _) => true
    case DoCreate(pid) => pid != q
    case DoDestroy(pid) => pid != q
  }

  lemma PutRevoked(s: State, id: nat, q: nat, k: nat, c: Option<Cap>)
    requires id < |s.pages|
    ensures Revoked(Put(s, q, k, c), id) == Put(Revoked(s, id), q, k, c)
  {
    PutUnmapped(s, id, q, k, c);
  }

  lemma {:induction false} PutRevokeIds(s: State, ids: seq<nat>, q: nat, k: nat, c: Option<Cap>)
    ensures RevokeIds(Put(s, q, k, c), ids) == Put(RevokeIds(s, ids), q, k, c)
    decreases ids
  {
    if ids != [] {
      if Registered(s, ids[0]) {
        PutRevoked(s, ids[0], q, k, c);
        PutRevokeIds(Revoked(s, ids[0]), ids[1..], q, k, c);
      } else {
        PutRevokeIds(s, ids[1..], q, k, c);
      }
    }
  }

  lemma PutDestroy(s: State, pid: nat, q: nat, k: nat, c: Option<Cap>)
    requires q != pid
    ensures Destroy(Put(s, q, k, c), pid) == Put(Destroy(s, pid), q, k, c)
  {
    if Alive(s, pid) {
      var ids := PageIds(s.procs[pid].caps);
      assert Put(s, q, k, c).procs[pid] == s.procs[pid];
      PutRevokeIds(s, ids, q, k, c);
      var r := RevokeIds(s, ids);
      assert TakenDown(Put(r, q, k, c), pid).procs == Put(TakenDown(r, pid), q, k, c).procs;
    }
  }

  lemma PutAlloc(s: State, owner: nat, l: nat, p: nat, q: nat, k: nat, c: Option<Cap>)
    requires Sized(s) && Alive(s, owner) && l < MAX_CAPS && (owner, l) != (q, k)
    ensures Sized(Put(s, q, k, c))
    ensures AllocGrant(Put(s, q, k, c), owner, l, p).0 == Put(AllocGrant(s, owner, l, p).0, q, k, c)
  {
    var (r, id) := AllocPage(s, owner, p);
    if id.Some? {
      PutPut(r, owner, l, Some(ToPage(id.value)), q, k, c);
    }
  }

  lemma PutRevokedSlot(s: State, id: nat, pid: nat, l: nat, q: nat, k: nat, c: Option<Cap>)
    requires id < |s.pages| && Alive(s, pid) && l < |s.procs[pid].caps| && (pid, l) != (q, k)
    ensures var p, r := Revoked(Put(s, q, k, c), id), Revoked(s, id);
            && p == Put(r, q, k, c) && pid < |p.procs| == |r.procs| && l < |p.procs[pid].caps| == |r.procs[pid].caps|
            && SetCap(p, pid, l, None) == Put(SetCap(r, pid, l, None), q, k, c)
  {
    PutRevoked(s, id, q, k, c);
    PutPut(Revoked(s, id), pid, l, None, q, k, c);
  }

  lemma PutRevoke(s: State, pid: nat, l: nat, q: nat, k: nat, c: Option<Cap>)
    requires Sized(s) && (pid, l) != (q, k)
    ensures Sized(Put(s, q, k, c)) && CapRevoke(Put(s, q, k, c), pid, l).0 == Put(CapRevoke(s, pid, l).0, q, k, c)
  {
    var t := CapTarget(s, pid, l);
    assert CapTarget(Put(s, q, k, c), pid, l) == t;
    if t.Found? {
      if t.cap.ToPage? {
        if Registered(s, t.cap.id) { PutRevokedSlot(s, t.cap.id, pid, l, q, k, c); }
      } else {
        PutPut(s, pid, l, None, q, k, c);
      }
    }
  }

  lemma PutMap(s: State, caller: nat, l: nat, va: nat, bad: set<nat>, q: nat, k: nat, c: Option<Cap>)
    requires Sized(s) && (caller, l) != (q, k)
    ensures Sized(Put(s, q, k, c))
    ensures MemMap(Put(s, q, k, c), caller, l, va, bad).0 == Put(MemMap(s, caller, l, va, bad).0, q, k, c)
  {
    var (r, e) := MemMap(s, caller, l, va, bad);
    assert CapTarget(Put(s, q, k, c), caller, l) == CapTarget(s, caller, l);
    if e.None? {
      assert MemMap(Put(s, q, k, c), caller, l, va, bad).0.procs == Put(r, q, k, c).procs;
    }
  }

  lemma PutDuplicate(s: State, pid: nat, from: nat, to: nat, q: nat, k: nat, c: Option<Cap>)
    requires Sized(s) && (pid, from) != (q, k) && (pid, to) != (q, k)
    ensures Sized(Put(s, q, k, c))
    ensures CapDuplicate(Put(s, q, k, c), pid, from, to).0 == Put(CapDuplicate(s, pid, from, to).0, q, k, c)
  {
    var l := CapTarget(s, pid, from);
    assert CapTarget(Put(s, q, k, c), pid, from) == l;
    if l.Found? { PutPut(s, pid, to, Some(l.cap), q, k, c); }
  }

  lemma PutMapPrivate(s: State, pid: nat, va: nat, p: nat, q: nat, k: nat, c: Option<Cap>)
    requires pid < |s.procs|
    ensures MapPrivate(Put(s, q, k, c), pid, va, p) == Put(MapPrivate(s, pid, va, p), q, k, c)
  {
    assert MapPrivate(Put(s, q, k, c), pid, va, p).procs == Put(MapPrivate(s, pid, va, p), q, k, c).procs;
  }

  lemma PutCreate(s: State, pid: nat, q: nat, k: nat, c: Option<Cap>)
    requires pid <= |s.procs| && !Alive(s, pid) && q != pid
    ensures Create(Put(s, q, k, c), pid) == Put(Create(s, pid), q, k, c)
  {
    assert Create(Put(s, q, k, c), pid).procs == Put(Create(s, pid), q, k, c).procs;
  }

  /** An operation that avoids a slot commutes with writing it. */
  lemma StepPut(s: State, op: Op, q: nat, k: nat, c: Option<Cap>)
    requires Sized(s) && Enabled(s, op) && Avoids(op, q, k)
    ensures Sized(Put(s, q, k, c)) && Enabled(Put(s, q, k, c), op)
    ensures Step(Put(s, q, k, c), op) == Put(Step(s, op), q, k, c)
  {
    match op
    case DoAlloc(owner, l, p) => PutAlloc(s, owner, l, p, q, k, c);
    case DoMap(caller, l, va, bad) => PutMap(s, caller, l, va, bad, q, k, c);
    case DoConnect(pid, l, peer) => PutPut(s, pid, l, Some(ToProc(peer)), q, k, c);
    case DoDuplicate(pid, from, to) => PutDuplicate(s, pid, from, to, q, k, c);
    case DoRevoke(pid, l) => PutRevoke(s, pid, l, q, k, c);
    case DoMapPrivate(pid, va, p) => PutMapPrivate(s, pid, va, p, q, k, c);
    case DoCreate(pid) => PutCreate(s, pid, q, k, c);
    case DoDestroy(pid) => PutDestroy(s, pid, q, k, c);
  }

  ghost predicate AvoidsAll(op: Op, slots: set<(nat, nat)>) {
    forall q: nat, k: nat :: (q, k) in slots ==> Avoids(op, q, k)
  }

  lemma StepFinished(s: State, op: Op, j: Job)
    requires Sized(s) && Enabled(s, op) && AvoidsAll(op, Pending(j))
    ensures Sized(Finished(s, j)) && Enabled(Finished(s, j), op)
    ensures Step(Finished(s, j), op) == Finished(Step(s, op), j)
  {
    var f := j.f;
    if j.at == Handed {
      StepPut(s, op, f.peer, f.dst, Some(ToPage(f.id)));
      StepPut(Put(s, f.peer, f.dst, Some(ToPage(f.id))), op, f.caller, f.src, None);
    } else if j.at == Placed {
      StepPut(s, op, f.caller, f.src, None);
    }
  }

  /** An operation that avoids what the grants will yet write does to the settled state what it does now. */
  lemma {:induction false} SettledStep(s: State, jobs: seq<Job>, op: Op)
    requires Sized(s) && Enabled(s, op) && forall i :: 0 <= i < |jobs| ==> AvoidsAll(op, Pending(jobs[i]))
    ensures Sized(Settled(s, jobs)) && Enabled(Settled(s, jobs), op)
    ensures Step(Settled(s, jobs), op) == Settled(Step(s, op), jobs)
    decreases |jobs|
  {
    if jobs != [] {
      var n := |jobs| - 1;
      SettledStep(s, jobs[..n], op);
      StepFinished(Settled(s, jobs[..n]), op, jobs[n]);
    }
  }

  // ----- What every step keeps -----

  /** What a grant has read still holds, once the others are done. */
  predicate JobOk(t: State, j: Job) {
    var f := j.f;
    match j.at
    case SawPage | SawPeer => Holds(t, f.caller, f.src, f.id)
    case SawAlive => Holds(t, f.caller, f.src, f.id) && Alive(t, f.peer) && f.dst < MAX_CAPS
    case Ready =>
      && Holds(t, f.caller, f.src, f.id) && Alive(t, f.peer) && f.dst < MAX_CAPS == |t.procs[f.peer].caps|
      && t.procs[f.peer].caps[f.dst] == None
    case Handed => Alive(t, f.caller) && Alive(t, f.peer) && f.src < MAX_CAPS && f.dst < MAX_CAPS
    case Placed => Alive(t, f.caller) && f.src < MAX_CAPS
  }

  ghost predicate JobsOk(t: State, jobs: seq<Job>) {
    forall i :: 0 <= i < |jobs| ==> JobOk(t, jobs[i])
  }

  /** The page invariant holds as soon as the grants in progress are done, and none of them disturbs another. */
  ghost predicate Good(m: Mach) {
    var t := Settled(m.s, m.jobs);
    var inv, ok, apart := Inv(t), JobsOk(t, m.jobs), AllApart(m.jobs);
    Sized(m.s) && inv && ok && apart
  }

  /** The operation leaves the slots of a grant alone; before the page is handed over it may be mapped. */
  ghost predicate LeavesAlone(op: Op, j: Job) {
    AvoidsAll(op, if op.DoMap? || op.DoCreate? then Pending(j) else Uses(j))
  }

  /** No other grant in progress uses slot `k` of `q`. */
  ghost predicate Unused(jobs: seq<Job>, i: nat, q: nat, k: nat) {
    forall l: nat :: l < |jobs| && l != i ==> (q, k) !in Uses(jobs[l])
  }

  /**
    The step does not use a slot that a grant in progress uses: a new grant has its own source slot, and
    its own destination as soon as it knows it, and other operations keep away from both.
  */
  ghost predicate Apart(m: Mach, move: Move)
    requires Sized(m.s) && CanMove(m, move)
  {
    match move
    case Begin(caller, src, via, dst) => Unused(m.jobs, |m.jobs|, caller, src)
    case Advance(i) =>
      m.jobs[i].at == SawPage ==>
        var l := CapTarget(m.s, m.jobs[i].f.caller, m.jobs[i].via);
        l.Found? && l.cap.ToProc? ==> Unused(m.jobs, i, l.cap.pid, m.jobs[i].f.dst)
    case Whole(op) => forall i :: 0 <= i < |m.jobs| ==> LeavesAlone(op, m.jobs[i])
  }

  lemma RegrantedSlot(t: State, id: nat, to: nat, q: nat)
    requires id < |t.pages| && q < |t.procs|
    ensures var r := Regranted(t, id, to);
            |r.procs| == |t.procs| && r.procs[q].caps == t.procs[q].caps && r.procs[q].alive == t.procs[q].alive
  {
  }

  predicate SlotKept(t: State, r: State, q: nat, k: nat) {
    && Alive(t, q) && Alive(r, q) && k < MAX_CAPS == |r.procs[q].caps| == |t.procs[q].caps|
    && r.procs[q].caps[k] == t.procs[q].caps[k]
  }

  lemma RevokeKeepsSlot(t: State, pid: nat, l: nat, q: nat, k: nat)
    requires Sized(t) && (pid, l) != (q, k) && Alive(t, q) && k < MAX_CAPS
    ensures SlotKept(t, CapRevoke(t, pid, l).0, q, k)
  {
    var c := CapTarget(t, pid, l);
    if c.Found? && c.cap.ToPage? && Registered(t, c.cap.id) {
      var u := Unmapped(t, c.cap.id);
      assert SlotKept(t, u, q, k);
    }
  }

  /** An operation keeps a slot it leaves alone, and its process. */
  lemma KeepsSlot(t: State, op: Op, q: nat, k: nat)
    requires Inv(t) && Enabled(t, op) && (op.DoMap? || op.DoCreate? || Avoids(op, q, k)) && Alive(t, q) && k < MAX_CAPS
    ensures SlotKept(t, Step(t, op), q, k)
  {
    match op
    case DoRevoke(pid, l) => RevokeKeepsSlot(t, pid, l, q, k);
    case DoDestroy(pid) => DestroyInv(t, pid);
    case _ => OpKeepsSlot(t, op, q, k);
  }

  lemma OpKeepsSlot(t: State, op: Op, q: nat, k: nat)
    requires Sized(t) && Enabled(t, op) && (op.DoMap? || op.DoCreate? || Avoids(op, q, k)) && Alive(t, q)
    requires k < MAX_CAPS
    requires !op.DoRevoke? && !op.DoDestroy?
    ensures SlotKept(t, Step(t, op), q, k)
  {
  }

  lemma JobKept(t: State, op: Op, j: Job)
    requires Inv(t) && Enabled(t, op) && JobOk(t, j) && LeavesAlone(op, j)
    ensures JobOk(Step(t, op), j)
  {
    var f := j.f;
    KeepsSlot(t, op, f.caller, f.src);
    if j.at != SawPage && j.at != SawPeer && j.at != Placed { KeepsSlot(t, op, f.peer, f.dst); }
  }

  // ----- A grant goes on -----

  lemma RestApart(jobs: seq<Job>, i: nat)
    requires AllApart(jobs) && i < |jobs|
    ensures AllApart(jobs[..i] + jobs[i + 1..])
  {
  }

  lemma LastApart(jobs: seq<Job>, j: Job)
    requires AllApart(jobs) && forall l :: 0 <= l < |jobs| ==> Uses(jobs[l]) !! Uses(j)
    ensures AllApart(jobs + [j])
  {
  }

  lemma SwapApart(jobs: seq<Job>, i: nat, j: Job)
    requires AllApart(jobs) && i < |jobs| && forall l :: 0 <= l < |jobs| && l != i ==> Uses(jobs[l]) !! Uses(j)
    ensures AllApart(jobs[i := j])
  {
  }

  /** A read changes nothing but what the grant knows. */
  lemma ReadGood(m: Mach, i: nat)
    requires Good(m) && i < |m.jobs| && Apart(m, Advance(i))
    requires m.jobs[i].at == SawPage || m.jobs[i].at == SawPeer || m.jobs[i].at == SawAlive
    ensures var r := Next(m, Advance(i)); Good(r) && Settled(r.s, r.jobs) == Settled(m.s, m.jobs)
  {
    var (s, j) := Section(m.s, m.jobs[i]);
    if j.None? {
      SettledDrop(m.s, m.jobs, i);
      RestApart(m.jobs, i);
    } else {
      SettledSwap(m.s, m.jobs, i, j.value);
      ReadApart(m, i, j.value);
      ReadOk(m.s, Settled(m.s, m.jobs), m.jobs, i, j.value);
    }
  }

  lemma ReadApart(m: Mach, i: nat, j: Job)
    requires Sized(m.s) && AllApart(m.jobs) && i < |m.jobs| && Apart(m, Advance(i))
    requires Section(m.s, m.jobs[i]) == (m.s, Some(j))
    ensures AllApart(m.jobs[i := j])
  {
    SwapApart(m.jobs, i, j);
  }

  /** What the grant has just read is so in the settled state. */
  lemma ReadOk(s: State, t: State, jobs: seq<Job>, i: nat, j: Job)
    requires Sized(s) && t == Settled(s, jobs) && AllApart(jobs) && i < |jobs| && JobOk(t, jobs[i])
    requires Section(s, jobs[i]) == (s, Some(j)) && Pending(jobs[i]) == Pending(j) == {}
    ensures JobOk(t, j)
  {
    var f := jobs[i].f;
    SettledFrame(s, jobs);
    if jobs[i].at == SawAlive {
      OwnSlot(jobs, i, f.peer, f.dst);
      SettledSlot(s, jobs, f.peer, f.dst);
    }
  }

  /** A slot of a grant that has not handed its page over is pending for nobody. */
  lemma OwnSlot(jobs: seq<Job>, i: nat, q: nat, k: nat)
    requires AllApart(jobs) && i < |jobs| && (q, k) in Uses(jobs[i]) && Pending(jobs[i]) == {}
    ensures NonePending(jobs, q, k)
  {
    forall l | 0 <= l < |jobs| ensures (q, k) !in Pending(jobs[l]) {
      assert Pending(jobs[l]) <= Uses(jobs[l]);
      if l != i { assert Uses(jobs[l]) !! Uses(jobs[i]); }
    }
  }

  /** After the hand-over what the other grants have read still holds. */
  lemma MovedJob(t: State, f: Flight, j: Job)
    requires Inv(t) && JobOk(t, j) && Registered(t, f.id) && Alive(t, f.caller) && f.src < MAX_CAPS
    requires Alive(t, f.peer) && f.dst < MAX_CAPS && (f.caller, f.src) !in Uses(j) && (f.peer, f.dst) !in Uses(j)
    ensures JobOk(Moved(t, f.caller, f.src, f.peer, f.dst, f.id), j)
  {
    RegrantedSlot(t, f.id, f.peer, j.f.caller);
    if j.f.peer < |t.procs| { RegrantedSlot(t, f.id, f.peer, j.f.peer); }
  }

  /** The settled state makes the whole move at once. */
  lemma HandMoves(m: Mach, i: nat)
    requires Sized(m.s) && i < |m.jobs| && m.jobs[i].at == Ready && Registered(m.s, m.jobs[i].f.id)
    requires var f, t := m.jobs[i].f, Settled(m.s, m.jobs);
             Sized(t) && Alive(t, f.caller) && Alive(t, f.peer) && f.src < MAX_CAPS && f.dst < MAX_CAPS
    ensures var r, f, t := Next(m, Advance(i)), m.jobs[i].f, Settled(m.s, m.jobs);
            Registered(t, f.id) && Settled(r.s, r.jobs) == Moved(t, f.caller, f.src, f.peer, f.dst, f.id)
  {
    var f, t := m.jobs[i].f, Settled(m.s, m.jobs);
    SettledHand(m.s, m.jobs, i);
    RegrantedSlot(t, f.id, f.peer, f.caller);
    RegrantedSlot(t, f.id, f.peer, f.peer);
  }

  lemma HandGood(m: Mach, i: nat)
    requires Good(m) && i < |m.jobs| && m.jobs[i].at == Ready
    ensures var r := Next(m, Advance(i));
            Good(r) && forall p: nat :: Known(Settled(r.s, r.jobs), p) <==> Known(Settled(m.s, m.jobs), p)
  {
    var f, t, r := m.jobs[i].f, Settled(m.s, m.jobs), Next(m, Advance(i));
    SettledFrame(m.s, m.jobs);
    assert Registered(m.s, f.id) by { assert Holds(t, f.caller, f.src, f.id); }
    HandMoves(m, i);
    MovedInv(t, f.caller, f.src, f.peer, f.dst, f.id);
    SettledFrame(r.s, r.jobs);
    HandJobs(t, m.jobs, i);
  }

  lemma HandJobs(t: State, jobs: seq<Job>, i: nat)
    requires Inv(t) && JobsOk(t, jobs) && AllApart(jobs) && i < |jobs| && jobs[i].at == Ready
    requires Registered(t, jobs[i].f.id)
    requires var f := jobs[i].f; Alive(t, f.caller) && f.src < MAX_CAPS
    ensures var f, r := jobs[i].f, Replaced(jobs, i, Some(jobs[i].(at := Handed)));
            AllApart(r) && JobsOk(Moved(t, f.caller, f.src, f.peer, f.dst, f.id), r)
  {
    var f, j, rest := jobs[i].f, jobs[i].(at := Handed), jobs[..i] + jobs[i + 1..];
    var t' := Moved(t, f.caller, f.src, f.peer, f.dst, f.id);
    RestApart(jobs, i);
    LastApart(rest, j);
    forall l | 0 <= l < |rest| ensures JobOk(t', rest[l]) {
      assert rest[l] in jobs;
      MovedJob(t, f, rest[l]);
    }
    RegrantedSlot(t, f.id, f.peer, f.caller);
    RegrantedSlot(t, f.id, f.peer, f.peer);
  }

  /** The two writes after the hand-over. */
  lemma WriteGood(m: Mach, i: nat)
    requires Good(m) && i < |m.jobs| && (m.jobs[i].at == Handed || m.jobs[i].at == Placed)
    ensures var r := Next(m, Advance(i)); Good(r) && Settled(r.s, r.jobs) == Settled(m.s, m.jobs)
  {
    var t, r := Settled(m.s, m.jobs), Next(m, Advance(i));
    WriteSettled(m, i);
    assert AllApart(r.jobs) by {
      if m.jobs[i].at == Handed { SwapApart(m.jobs, i, m.jobs[i].(at := Placed)); } else { RestApart(m.jobs, i); }
    }
    SettledFrame(r.s, r.jobs);
  }

  lemma WriteSettled(m: Mach, i: nat)
    requires Sized(m.s) && AllApart(m.jobs) && i < |m.jobs| && (m.jobs[i].at == Handed || m.jobs[i].at == Placed)
    requires JobOk(Settled(m.s, m.jobs), m.jobs[i])
    ensures var r := Next(m, Advance(i));
            && Settled(r.s, r.jobs) == Settled(m.s, m.jobs)
            && r.jobs == Replaced(m.jobs, i, if m.jobs[i].at == Handed then Some(m.jobs[i].(at := Placed)) else None)
  {
    SettledFrame(m.s, m.jobs);
    if m.jobs[i].at == Handed { SettledPlace(m.s, m.jobs, i); } else { SettledClear(m.s, m.jobs, i); }
  }

  lemma BeginGood(m: Mach, caller: nat, src: nat, via: nat, dst: nat)
    requires Good(m) && Apart(m, Begin(caller, src, via, dst))
    ensures var r := Next(m, Begin(caller, src, via, dst)); Good(r) && Settled(r.s, r.jobs) == Settled(m.s, m.jobs)
  {
    var l := CapTarget(m.s, caller, src);
    if l.Found? && l.cap.ToPage? {
      var j := Job(Flight(caller, src, 0, dst, l.cap.id), via, SawPage);
      LastApart(m.jobs, j);
      assert (m.jobs + [j])[..|m.jobs|] == m.jobs;
      assert NonePending(m.jobs, caller, src) by {
        assert forall i :: 0 <= i < |m.jobs| ==> Pending(m.jobs[i]) <= Uses(m.jobs[i]);
      }
      SettledSlot(m.s, m.jobs, caller, src);
    }
  }

  lemma WholeGood(m: Mach, op: Op)
    requires Good(m) && Enabled(m.s, op) && Apart(m, Whole(op))
    ensures var r := Next(m, Whole(op));
            Good(r) && forall p: nat :: Known(Settled(r.s, r.jobs), p) <==> Known(Settled(m.s, m.jobs), p)
  {
    var t := Settled(m.s, m.jobs);
    forall i | 0 <= i < |m.jobs| ensures AvoidsAll(op, Pending(m.jobs[i])) {
      assert LeavesAlone(op, m.jobs[i]) && Pending(m.jobs[i]) <= Uses(m.jobs[i]);
    }
    SettledStep(m.s, m.jobs, op);
    StepInv(t, op);
    forall i | 0 <= i < |m.jobs| ensures JobOk(Step(t, op), m.jobs[i]) {
      JobKept(t, op, m.jobs[i]);
    }
    SettledFrame(Step(m.s, op), m.jobs);
  }

  /** Every step that uses no slot of a grant in progress keeps the invariant, and loses and frees no page. */
  lemma MoveGood(m: Mach, move: Move)
    requires Good(m) && CanMove(m, move) && Apart(m, move)
    ensures var r := Next(m, move);
            Good(r) && forall p: nat :: Known(Settled(r.s, r.jobs), p) <==> Known(Settled(m.s, m.jobs), p)
  {
    match move
    case Begin(caller, src, via, dst) => BeginGood(m, caller, src, via, dst);
    case Whole(op) => WholeGood(m, op);
    case Advance(i) =>
      match m.jobs[i].at {
        case Ready => HandGood(m, i);
        case Handed | Placed => WriteGood(m, i);
        case _ => ReadGood(m, i);
      }
  }

  /** A run of steps; it stops at one that cannot be made. */
  ghost function Exec(m: Mach, moves: seq<Move>): (r: Mach)
    decreases |moves|, m
  {
    if moves == [] || !Sized(m.s) || !CanMove(m, moves[0]) then m else Exec(Next(m, moves[0]), moves[1..])
  }

  /** No step of the run uses a slot of a grant that is then in progress. */
  ghost predicate AllApartRun(m: Mach, moves: seq<Move>)
    decreases |moves|, m
  {
    moves != [] && Sized(m.s) && CanMove(m, moves[0]) ==>
      Apart(m, moves[0]) && AllApartRun(Next(m, moves[0]), moves[1..])
  }

  /**
    Over every interleaving of grants and other operations in which no two calls in progress use the same
    slot: once no grant is in progress the page invariant holds, and the free, registered and mapped pages
    are together the same as before.
  */
  lemma {:induction false} RunGood(m: Mach, moves: seq<Move>)
    requires Good(m) && AllApartRun(m, moves)
    ensures var r := Exec(m, moves);
            && Good(r) && (r.jobs == [] ==> Inv(r.s))
            && forall p: nat :: Known(Settled(r.s, r.jobs), p) <==> Known(Settled(m.s, m.jobs), p)
    decreases |moves|
  {
    if moves != [] && CanMove(m, moves[0]) {
      MoveGood(m, moves[0]);
      RunGood(Next(m, moves[0]), moves[1..]);
    }
  }

  /** While grants are in progress, too, no page is held by two slots, but for those about to be written. */
  lemma OneHolderMeanwhile(m: Mach, a: nat, k: nat, b: nat, l: nat, id: nat)
    requires Good(m) && NonePending(m.jobs, a, k) && NonePending(m.jobs, b, l)
    requires Holds(m.s, a, k, id) && Holds(m.s, b, l, id)
    ensures a == b && k == l && Registered(m.s, id) && m.s.pages[id].owner == a
  {
    var t := Settled(m.s, m.jobs);
    SettledSlot(m.s, m.jobs, a, k);
    SettledSlot(m.s, m.jobs, b, l);
    assert Holds(t, a, k, id) && Holds(t, b, l, id);
    OneHolder(t, a, k, b, l, id);
  }
}
