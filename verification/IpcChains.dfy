/**
  Priority inheritance, said of queue positions: what a donation moves, and how urgency travels along a chain of
  blocked callers.
*/
module IpcChains {
  import opened Common
  import opened ReadyQueues
  import opened SchedModel
  import opened SchedDonations
  import opened SchedSteps
  import opened SchedWake
  import opened IpcSystem
  import opened IpcRuns

  /** Thread `id` is queued at level `l` of its hart. */
  predicate StandsAt(s: Sched, id: nat, l: nat) {
    && Shaped(s.ready) && id < |s.threads| && s.threads[id].hart < MAX_HARTS && l < PRIO_LEVELS
    && id in s.ready[s.threads[id].hart][l]
  }

  lemma StandsIff(s: Sched, id: nat, l: nat)
    requires Inv(s) && id < |s.threads|
    ensures StandsAt(s, id, l) <==> s.threads[id].state == Ready && Eff(s.threads[id], s.donations) == l
  {
    var h := s.threads[id].hart;
    if l < PRIO_LEVELS { QueuedExactly(s, id, h, l); }
  }

  // ----- One donation -----

  /** One donation more is one candidate more. */
  lemma EffJoin(t: Thread, ds: seq<Donation>, d: Donation)
    ensures Eff(t, ds + [d]) == if t.proc == Some(d.peer) && d.prio < Eff(t, ds) then d.prio else Eff(t, ds)
  {
    if t.proc.Some? {
      var all, e := ds + [d], Eff(t, ds);
      BoostIsBest(t.prio, t.proc.value, ds);
      assert d in all && forall x :: x in ds ==> x in all;
      BoostDetermined(t.prio, t.proc.value, all, if t.proc == Some(d.peer) && d.prio < e then d.prio else e);
    }
  }

  /** A queued thread of the peer goes to the donor's level if that is better; every other stays where it is. */
  lemma RegisterMoves(s: Sched, donor: nat, peer: nat, id: nat, l: nat)
    requires Inv(s) && donor < |s.threads| && EntryOf(s.donations, donor) == |s.donations| && StandsAt(s, id, l)
    ensures var r, e := Register(s, donor, peer), Eff(s.threads[donor], s.donations);
            && Inv(r) && r.threads == s.threads
            && StandsAt(r, id, if s.threads[id].proc == Some(peer) && e < l then e else l)
  {
    RegisterInv(s, donor, peer);
    var r := Register(s, donor, peer);
    StandsIff(s, id, l);
    EffJoin(s.threads[id], s.donations, Donation(donor, peer, Eff(s.threads[donor], s.donations)));
    StandsIff(r, id, Eff(s.threads[id], r.donations));
  }

  /** Just after a caller has donated, every queued thread of its peer stands at least at its level. */
  lemma DonateMoves(y: Sys, h: nat, id: nat, l: nat)
    requires SysInv(y) && CanDonate(y, h) && StandsAt(y.sched, id, l)
    ensures var r, tid, peer := DonateStep(y, h).sched, y.sched.current[h], y.phase[y.sched.current[h]].peer;
            && tid < |y.sched.threads|
            && var e := Eff(y.sched.threads[tid], y.sched.donations);
               StandsAt(r, id, if y.sched.threads[id].proc == peer && e < l then e else l)
  {
    var tid := y.sched.current[h];
    NoDonationYet(y, tid);
    RegisterMoves(y.sched, tid, y.phase[tid].peer.value, id, l);
  }

  // ----- Chains -----

  /** The second donor is a thread of the process that the first donates to. */
  predicate Linked(ts: seq<Thread>, d: Donation, e: Donation) {
    e.donor < |ts| && ts[e.donor].proc == Some(d.peer)
  }

  /** A donor is at least as urgent as itself, and as whoever donated to its process before it donated. */
  ghost predicate Urgent(ts: seq<Thread>, ds: seq<Donation>) {
    && (forall i :: 0 <= i < |ds| ==> ds[i].donor < |ts| && ds[i].prio <= ts[ds[i].donor].prio)
    && (forall i, j :: 0 <= i < j < |ds| && Linked(ts, ds[i], ds[j]) ==> ds[j].prio <= ds[i].prio)
  }

  /** Donations `c`, each registered after the one before it, each by a thread of the process that one is for. */
  ghost predicate Chain(ts: seq<Thread>, ds: seq<Donation>, c: seq<nat>) {
    && c != [] && (forall k :: 0 <= k < |c| ==> c[k] < |ds|)
    && forall k :: 0 <= k < |c| - 1 ==> c[k] < c[k + 1] && Linked(ts, ds[c[k]], ds[c[k + 1]])
  }

  lemma {:induction false} ChainDescends(ts: seq<Thread>, ds: seq<Donation>, c: seq<nat>)
    requires Urgent(ts, ds) && Chain(ts, ds, c)
    ensures ds[c[0]].donor < |ts| && ds[c[|c| - 1]].prio <= ts[ds[c[0]].donor].prio
    decreases |c|
  {
    if |c| > 1 {
      var b := c[..|c| - 1];
      assert Chain(ts, ds, b) by {
        assert forall k :: 0 <= k < |b| ==> b[k] == c[k];
      }
      ChainDescends(ts, ds, b);
      assert c[|c| - 2] < c[|c| - 2 + 1] && Linked(ts, ds[c[|c| - 2]], ds[c[|c| - 2 + 1]]);
    }
  }

  /**
    Along a chain of callers that blocked one after the other every queued thread of the last process stands at least
    at the natural priority of the first caller.
  */
  lemma ChainLifts(y: Sys, c: seq<nat>, id: nat)
    requires SysInv(y) && Urgent(y.sched.threads, y.sched.donations) && Chain(y.sched.threads, y.sched.donations, c)
    requires id < |y.sched.threads| && y.sched.threads[id].state == Ready
    requires y.sched.threads[id].proc == Some(y.sched.donations[c[|c| - 1]].peer)
    ensures var s := y.sched;
            && s.donations[c[0]].donor < |s.threads|
            && exists l: nat :: l <= s.threads[s.donations[c[0]].donor].prio && StandsAt(s, id, l)
  {
    var s := y.sched;
    var last := s.donations[c[|c| - 1]];
    ChainDescends(s.threads, s.donations, c);
    assert last in s.donations;
    BoostIsBest(s.threads[id].prio, last.peer, s.donations);
    StandsIff(s, id, Eff(s.threads[id], s.donations));
  }

  // ----- Every step keeps that -----

  /** The donors keep priority and process. */
  ghost predicate SameDonors(ts: seq<Thread>, ts': seq<Thread>, ds: seq<Donation>) {
    forall i :: 0 <= i < |ds| && ds[i].donor < |ts| ==>
      && ds[i].donor < |ts'| && ts'[ds[i].donor].prio == ts[ds[i].donor].prio
      && ts'[ds[i].donor].proc == ts[ds[i].donor].proc
  }

  lemma SameUrgent(ts: seq<Thread>, ts': seq<Thread>, ds: seq<Donation>)
    requires Urgent(ts, ds) && SameDonors(ts, ts', ds)
    ensures Urgent(ts', ds)
  {
    forall i, j | 0 <= i < j < |ds| && Linked(ts', ds[i], ds[j]) ensures ds[j].prio <= ds[i].prio {
      assert Linked(ts, ds[i], ds[j]);
    }
  }

  lemma DroppedUrgent(ts: seq<Thread>, ds: seq<Donation>, k: nat)
    requires Urgent(ts, ds) && k < |ds|
    ensures Urgent(ts, Dropped(ds, k))
  {
    var r := Dropped(ds, k);
    assert forall i :: 0 <= i < |r| ==> r[i] == ds[if i < k then i else i + 1];
  }

  lemma RevokeUrgent(s: Sched, donor: nat)
    requires Inv(s) && Urgent(s.threads, s.donations)
    ensures var r := Revoke(s, donor); Urgent(r.threads, r.donations)
  {
    var i := EntryOf(s.donations, donor);
    if i < |s.donations| { DroppedUrgent(s.threads, s.donations, i); }
  }

  lemma JoinUrgent(ts: seq<Thread>, ds: seq<Donation>, d: Donation)
    requires Urgent(ts, ds) && d.donor < |ts| && d.prio == Eff(ts[d.donor], ds)
    ensures Urgent(ts, ds + [d])
  {
    var all, t := ds + [d], ts[d.donor];
    if t.proc.Some? { BoostIsBest(t.prio, t.proc.value, ds); }
    forall i, j | 0 <= i < j < |all| && Linked(ts, all[i], all[j]) ensures all[j].prio <= all[i].prio {
      if j == |ds| { assert ds[i] in ds; }
    }
  }

  lemma DonateUrgent(y: Sys, h: nat)
    requires SysInv(y) && CanDonate(y, h) && Urgent(y.sched.threads, y.sched.donations)
    ensures var r := DonateStep(y, h).sched; Urgent(r.threads, r.donations)
  {
    var tid := y.sched.current[h];
    NoDonationYet(y, tid);
    RegisterInv(y.sched, tid, y.phase[tid].peer.value);
    JoinUrgent(y.sched.threads, y.sched.donations,
      Donation(tid, y.phase[tid].peer.value, Eff(y.sched.threads[tid], y.sched.donations)));
  }

  /** One thread changes, but neither its priority nor its process. */
  lemma OneUrgent(ts: seq<Thread>, ts': seq<Thread>, ds: seq<Donation>, id: nat)
    requires Urgent(ts, ds) && id < |ts| == |ts'| && ts' == ts[id := ts'[id]]
    requires ts'[id].prio == ts[id].prio && ts'[id].proc == ts[id].proc
    ensures Urgent(ts', ds)
  {
    SameUrgent(ts, ts', ds);
  }

  lemma DeliverUrgent(y: Sys, i: nat)
    requires SysInv(y) && i < |y.transit| && Urgent(y.sched.threads, y.sched.donations)
    ensures var r := DeliverStep(y, i).sched; Urgent(r.threads, r.donations)
  {
    Addressee(y, i);
    var s, tid, d := y.sched, y.transit[i].tid, y.transit[i].d;
    var t := s.threads[tid];
    if t.state == Blocked {
      ServedInv(s, tid, d);
      var q := Queue(s, tid, Served(t, d), ServedFrom(t, d, s.latest[tid]));
      OneUrgent(s.threads, q.threads, s.donations, tid);
      RevokeUrgent(q, tid);
    } else {
      OneUrgent(s.threads, Deliver(s, tid, d).threads, s.donations, tid);
    }
  }

  /** A caller takes a result that came first. */
  lemma TakeUrgent(s: Sched, cur: nat)
    requires Inv(s) && cur < |s.threads| && Urgent(s.threads, s.donations)
    requires Inv(SetTo(s, cur, s.threads[cur].(ipcWake := NoWake), s.latest[cur]))
    ensures var r := Revoke(SetTo(s, cur, s.threads[cur].(ipcWake := NoWake), s.latest[cur]), cur);
            Urgent(r.threads, r.donations)
  {
    var q := SetTo(s, cur, s.threads[cur].(ipcWake := NoWake), s.latest[cur]);
    OneUrgent(s.threads, q.threads, s.donations, cur);
    RevokeUrgent(q, cur);
  }

  lemma SleepsUrgent(s: Sched, h: nat, t: Thread, r: Sched, next: nat)
    requires Sized(s) && h < MAX_HARTS && Sleeps(s, h, t, r, next) && Urgent(s.threads, s.donations)
    requires t.prio == s.threads[s.current[h]].prio
    ensures Urgent(r.threads, r.donations)
  {
    var cur := s.current[h];
    OneUrgent(s.threads, s.threads[cur := t], s.donations, cur);
    OneUrgent(s.threads[cur := t], r.threads, s.donations, next);
  }

  lemma TrapUrgent(y: Sys, h: nat, frame: seq<nat>, regs: Context)
    requires SysInv(y) && UserAtBlock(y, h, frame, regs) && Urgent(y.sched.threads, y.sched.donations)
    ensures var r := BlockStep(y, h, frame, regs).0.sched; Urgent(r.threads, r.donations)
  {
    var s, tid := y.sched, y.sched.current[h];
    assert PhaseFits(s.threads[tid], y.phase[tid], true);
    BlockUserInv(s, h, frame, regs, 0);
    var (r, o, f) := BlockUser(s, h, frame, regs);
    if s.threads[tid].ipcWake != NoWake {
      SetInv(s, -1, -1, tid, s.threads[tid].(ipcWake := NoWake), s.latest[tid]);
      TakeUrgent(s, tid);
    } else {
      SleepsUrgent(s, h, Asleep(s.threads[tid], frame, regs), r, o.next);
    }
  }

  lemma ParkUrgent(y: Sys, h: nat, regs: Context)
    requires SysInv(y) && KernelAtBlock(y, h, regs) && Urgent(y.sched.threads, y.sched.donations)
    ensures var r := KernelBlock(y, h, regs).0.sched; Urgent(r.threads, r.donations)
  {
    var s, tid := y.sched, y.sched.current[h];
    assert PhaseFits(s.threads[tid], y.phase[tid], true);
    BlockCurrentInv(s, h, regs, 0);
    var (r, o) := BlockCurrent(s, h, regs);
    var t := s.threads[tid];
    if t.ipcWake != NoWake {
      SetInv(s, -1, -1, tid, t.(ipcWake := NoWake), s.latest[tid]);
      TakeUrgent(s, tid);
    } else if t.woken {
      OneUrgent(s.threads, r.threads, s.donations, tid);
    } else {
      SleepsUrgent(s, h, Parked(t, regs), r, o.next);
    }
  }

  lemma LocalUrgent(s: Sched, r: Sched, h: nat)
    requires Local(s, r, h) && Urgent(s.threads, s.donations)
    ensures Urgent(r.threads, r.donations)
  {
    SameUrgent(s.threads, r.threads, s.donations);
  }

  lemma HartUrgent(y: Sys, op: HartOp, gp: nat)
    requires SysInv(y) && HartEnabled(y, op) && Urgent(y.sched.threads, y.sched.donations)
    ensures var r := HartStep(y, op, gp).0; Urgent(r.threads, r.donations)
  {
    if op.Taking? {
      OneUrgent(y.sched.threads, HartStep(y, op, gp).0.threads, y.sched.donations, y.sched.current[op.h]);
    } else {
      HartLocal(y, op, gp);
      LocalUrgent(y.sched, HartStep(y, op, gp).0, op.h);
    }
  }

  /** A donor has not exited, so its slot is not given away. */
  lemma DonorsLive(y: Sys, i: nat)
    requires SysInv(y) && i < |y.sched.donations|
    ensures var d := y.sched.donations[i].donor; d < |y.sched.threads| && y.sched.threads[d].state != Exited
  {
    var e := y.sched.donations[i];
    assert e in y.sched.donations;
    assert PhaseFits(y.sched.threads[e.donor], y.phase[e.donor],
        y.sched.current[y.sched.threads[e.donor].hart] == e.donor);
  }

  lemma JoinsUrgent(y: Sys, r: Sched, t: Thread)
    requires SysInv(y) && Joins(y.sched, r, t) && Urgent(y.sched.threads, y.sched.donations)
    ensures Urgent(r.threads, r.donations)
  {
    var s := y.sched;
    forall i | 0 <= i < |s.donations| && s.donations[i].donor < |s.threads|
      ensures s.donations[i].donor < |r.threads| && r.threads[s.donations[i].donor] == s.threads[s.donations[i].donor]
    {
      DonorsLive(y, i);
    }
    SameUrgent(s.threads, r.threads, s.donations);
  }

  lemma SpawnUrgent(y: Sys, t: Thread)
    requires SysInv(y) && NewThread(t) && HasRoom(y.sched) && Urgent(y.sched.threads, y.sched.donations)
    ensures var r := SpawnStep(y, t).sched; Urgent(r.threads, r.donations)
  {
    NewThreadOk(t);
    SpawnInv(y.sched, t);
    JoinsUrgent(y, Spawn(y.sched, t), t);
  }

  lemma SpawnOwnedUrgent(y: Sys, t: Thread, pid: nat)
    requires SysInv(y) && NewThread(t) && t.proc == None && HasRoom(y.sched)
    requires Urgent(y.sched.threads, y.sched.donations)
    ensures var r := SpawnOwnedStep(y, t, pid).sched; Urgent(r.threads, r.donations)
  {
    NewThreadOk(t);
    SpawnOwnedInv(y.sched, t, pid);
    JoinsUrgent(y, SpawnOwned(y.sched, t, pid), t.(proc := Some(pid)));
  }

  lemma WakeUrgent(s: Sched, id: nat)
    requires Inv(s) && Urgent(s.threads, s.donations)
    ensures var r := Wake(s, id); Urgent(r.threads, r.donations)
  {
    if id < |s.threads| {
      WakeInv(s, id);
      OneUrgent(s.threads, Wake(s, id).threads, s.donations, id);
    }
  }

  lemma MoveUrgent(s: Sched, id: nat, hart: nat)
    requires Inv(s) && id < |s.threads| && s.threads[id].state in {Ready, Blocked} && Urgent(s.threads, s.donations)
    ensures var r := SetAffinity(s, id, hart); Urgent(r.threads, r.donations)
  {
    OneUrgent(s.threads, SetAffinity(s, id, hart).threads, s.donations, id);
  }

  lemma CallUrgent(y: Sys, op: Op)
    requires SysInv(y) && Enabled(y, op) && IsIpc(op) && Urgent(y.sched.threads, y.sched.donations)
    ensures var r := IpcStep(y, op).0.sched; Urgent(r.threads, r.donations)
  {
    match op
    case Donating(h) => DonateUrgent(y, h);
    case Sleeping(h, frame, regs) => TrapUrgent(y, h, frame, regs);
    case KernelSleeping(h, regs) => ParkUrgent(y, h, regs);
    case Delivering(i) => DeliverUrgent(y, i);
    case _ =>
  }

  lemma StepUrgent(y: Sys, op: Op, gp: nat)
    requires SysInv(y) && Enabled(y, op) && Urgent(y.sched.threads, y.sched.donations)
    ensures var r := Step(y, op, gp).0.sched; Urgent(r.threads, r.donations)
  {
    match op
    case OnHart(hop) => HartUrgent(y, hop, gp);
    case Waking(id) => WakeUrgent(y.sched, id);
    case Moving(id, hart) => MoveUrgent(y.sched, id, hart);
    case Spawning(t) => SpawnUrgent(y, t);
    case SpawningOwned(t, pid) => SpawnOwnedUrgent(y, t, pid);
    case _ => CallUrgent(y, op);
  }

  lemma {:induction false} RunUrgent(y: Sys, ops: seq<Op>, gp: nat)
    requires SysInv(y) && Legal(y, ops, gp) && Urgent(y.sched.threads, y.sched.donations)
    ensures var r := Run(y, ops, gp).sched; Urgent(r.threads, r.donations)
    decreases |ops|
  {
    if ops != [] {
      StepKeeps(y, ops[0], gp);
      StepUrgent(y, ops[0], gp);
      RunUrgent(Step(y, ops[0], gp).0, ops[1..], gp);
    }
  }

  /** From boot on, whatever the harts do. */
  lemma ReachableLifts(frame: seq<nat>, ctx: Context, ops: seq<Op>, gp: nat, c: seq<nat>, id: nat)
    requires |frame| == FRAME_WORDS && |ctx.s| == 12
    requires SysInv(Boot(frame, ctx)) && Legal(Boot(frame, ctx), ops, gp)
    requires var s := Run(Boot(frame, ctx), ops, gp).sched;
             && Chain(s.threads, s.donations, c) && id < |s.threads| && s.threads[id].state == Ready
             && s.threads[id].proc == Some(s.donations[c[|c| - 1]].peer)
    ensures var s := Run(Boot(frame, ctx), ops, gp).sched;
            && s.donations[c[0]].donor < |s.threads|
            && exists l: nat :: l <= s.threads[s.donations[c[0]].donor].prio && StandsAt(s, id, l)
  {
    RunKeeps(Boot(frame, ctx), ops, gp);
    RunUrgent(Boot(frame, ctx), ops, gp);
    ChainLifts(Run(Boot(frame, ctx), ops, gp), c, id);
  }

  // ----- The other order -----

  /** Three threads: `a` is the most urgent, `b` belongs to process `p`, and `c` is queued for process `q`. */
  ghost predicate ThreeThreads(s: Sched, a: nat, b: nat, c: nat, p: nat, q: nat) {
    && a < |s.threads| && b < |s.threads| && a != b && p != q && s.donations == []
    && s.threads[b].proc == Some(p) && s.threads[a].proc != Some(q) && s.threads[a].proc != Some(p)
    && c < |s.threads| && s.threads[c].state == Ready && s.threads[c].proc == Some(q)
    && s.threads[a].prio < s.threads[b].prio && s.threads[a].prio < s.threads[c].prio
  }

  lemma OneDonation(s: Sched, a: nat, p: nat)
    requires Inv(s) && a < |s.threads| && s.donations == []
    ensures Inv(Register(s, a, p)) && Register(s, a, p).threads == s.threads
    ensures Register(s, a, p).donations == [Donation(a, p, s.threads[a].prio)]
    ensures forall b: nat :: b != a ==> EntryOf(Register(s, a, p).donations, b) == 1
  {
    RegisterInv(s, a, p);
    if s.threads[a].proc.Some? { BoostDetermined(s.threads[a].prio, s.threads[a].proc.value, [], s.threads[a].prio); }
  }

  lemma EffOne(t: Thread, d: Donation)
    ensures Eff(t, [d]) == if t.proc == Some(d.peer) && d.prio < t.prio then d.prio else t.prio
  {
    EffJoin(t, [], d);
    assert [] + [d] == [d];
  }

  /** `a` donates to the process of `b`, and then `b` to that of `c`, which is lifted to the level of `a`. */
  lemma InOrderLifts(s: Sched, a: nat, b: nat, c: nat, p: nat, q: nat)
    requires Inv(s) && ThreeThreads(s, a, b, c, p, q)
    ensures Inv(Register(s, a, p)) && b < |Register(s, a, p).threads|
    ensures StandsAt(Register(Register(s, a, p), b, q), c, s.threads[a].prio)
  {
    OneDonation(s, a, p);
    var first := Register(s, a, p);
    EffOne(s.threads[b], Donation(a, p, s.threads[a].prio));
    EffOne(s.threads[c], Donation(a, p, s.threads[a].prio));
    StandsIff(first, c, s.threads[c].prio);
    RegisterMoves(first, b, q, c, s.threads[c].prio);
  }

  /** In the other order `c` stays behind `a`: a donation is not passed on by a thread that has donated already. */
  lemma LateLink(s: Sched, a: nat, b: nat, c: nat, p: nat, q: nat)
    requires Inv(s) && ThreeThreads(s, a, b, c, p, q)
    ensures Inv(Register(s, b, q)) && a < |Register(s, b, q).threads|
    ensures exists l: nat :: l > s.threads[a].prio && StandsAt(Register(Register(s, b, q), a, p), c, l)
  {
    OneDonation(s, b, q);
    var other, d := Register(s, b, q), Donation(b, q, s.threads[b].prio);
    EffOne(s.threads[c], d);
    StandsIff(other, c, Eff(s.threads[c], [d]));
    RegisterMoves(other, a, p, c, Eff(s.threads[c], [d]));
  }
}
