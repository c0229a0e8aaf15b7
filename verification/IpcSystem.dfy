/**
  Scheduler and rendezvous together, with the windows between their critical sections: a thread that
  found no peer is first registered, then donates, then blocks; a result is on its way between the
  pairing under the IPC lock and its delivery under the scheduler lock. User threads call with interrupts
  off; a kernel thread may be preempted inside the window, and blocks with `block_current`.
*/
module IpcSystem {
  import opened Common
  import opened ReadyQueues
  import opened SchedModel
  import opened SchedDonations
  import opened SchedSteps
  import opened SchedWake
  import opened IpcModel

  /** Where a thread is in its IPC operation; `peer` is the process it wants, `None` when it listens. */
  datatype Phase = Outside | Registered(peer: Option<nat>) | Donated(peer: Option<nat>) | Waiting(peer: Option<nat>)

  datatype Transit = Transit(tid: nat, d: Delivery)

  datatype Sys = Sys(sched: Sched, ipc: Ipc, transit: seq<Transit>, phase: seq<Phase>)

  const ENOENT: nat := 0xFFFF_FFFF_FFFF_FFFD

  function TransitTids(ts: seq<Transit>): (r: seq<nat>) {
    if ts == [] then [] else [ts[0].tid] + TransitTids(ts[1..])
  }

  function Stored(ts: seq<Thread>, x: nat): (r: nat) {
    if x < |ts| && ts[x].ipcWake != NoWake then 1 else 0
  }

  /** How many places hold the fate of thread `x`'s operation: queue entries, results on their way, a kept result. */
  function Tokens(y: Sys, x: nat): (r: nat) {
    Count(SendTids(y.ipc.sends), x) + Count(RecvTids(y.ipc.recvs), x) + Count(TransitTids(y.transit), x)
      + Stored(y.sched.threads, x)
  }

  predicate InIpc(phase: seq<Phase>, x: nat) {
    x < |phase| && phase[x] != Outside
  }

  ghost predicate ExactlyOne(y: Sys) {
    forall x: nat :: Tokens(y, x) == if InIpc(y.phase, x) then 1 else 0
  }

  /** What the scheduler state says about a thread in each phase. */
  predicate PhaseFits(t: Thread, p: Phase, current: bool) {
    && WakeOk(t.ipcWake)
    && match p
       case Outside => !(t.user && t.state == Blocked)
       case Registered(_) => InWindow(t, current)
       case Donated(_) => InWindow(t, current)
       case Waiting(_) => t.proc.Some? && t.state == Blocked && t.ipcWake == NoWake && (t.user || !t.frameValid)
  }

  /** A thread between its call and its block: a user thread runs, a kernel thread may have been preempted. */
  predicate InWindow(t: Thread, current: bool) {
    t.proc.Some? && if t.user then t.state == Running && current else t.state in {Ready, Running}
  }

  ghost predicate Phases(s: Sched, phase: seq<Phase>) {
    && |phase| == |s.threads| && |s.current| == MAX_HARTS
    && forall id: nat :: id < |phase| ==>
         s.threads[id].hart < MAX_HARTS && PhaseFits(s.threads[id], phase[id], s.current[s.threads[id].hart] == id)
  }

  predicate Donor(p: Phase) {
    (p.Donated? || p.Waiting?) && p.peer.Some?
  }

  /** A donation belongs to an operation that has donated and is not finished, and the other way round. */
  ghost predicate DonationsLive(ds: seq<Donation>, phase: seq<Phase>) {
    && (forall d :: d in ds ==> d.donor < |phase| && Donor(phase[d.donor]) && phase[d.donor].peer == Some(d.peer))
    && (forall id: nat :: id < |phase| && Donor(phase[id]) ==> exists d :: d in ds && d.donor == id)
  }

  ghost predicate SysInv(y: Sys) {
    var inv, one, phases := Inv(y.sched), ExactlyOne(y), Phases(y.sched, y.phase);
    var live, unmatched := DonationsLive(y.sched.donations, y.phase), Unmatched(y.ipc);
    var deliveries := forall i :: 0 <= i < |y.transit| ==> DeliveryOk(y.transit[i].d);
    inv && one && phases && live && unmatched && deliveries
  }

  // ----- What the invariant means -----

  lemma FirstDonates(y: Sys)
    requires SysInv(y) && y.sched.donations != []
    ensures InIpc(y.phase, y.sched.donations[0].donor)
  {
    assert y.sched.donations[0] in y.sched.donations;
  }

  /** Once nothing is in flight the donation table is empty. */
  lemma NothingInFlight(y: Sys)
    requires SysInv(y) && forall id: nat :: !InIpc(y.phase, id)
    ensures y.sched.donations == []
  {
    if y.sched.donations != [] { FirstDonates(y); }
  }

  /**
    A thread that sleeps in an IPC call, as every blocked user thread does, has exactly one queue entry or
    one result on its way: it is neither forgotten nor served twice.
  */
  lemma BlockedIsAwaited(y: Sys, id: nat)
    requires SysInv(y) && id < |y.sched.threads| && y.sched.threads[id].state == Blocked
    requires y.sched.threads[id].user || InIpc(y.phase, id)
    ensures Count(SendTids(y.ipc.sends), id) + Count(RecvTids(y.ipc.recvs), id) + Count(TransitTids(y.transit), id) == 1
  {
    assert PhaseFits(y.sched.threads[id], y.phase[id], y.sched.current[y.sched.threads[id].hart] == id);
    assert Tokens(y, id) == if InIpc(y.phase, id) then 1 else 0;
  }

  /** While a donation exists, every queued thread of the peer stands at least at the donated priority. */
  lemma DonationLifts(y: Sys, d: Donation, id: nat)
    requires SysInv(y) && d in y.sched.donations && id < |y.sched.threads|
    requires y.sched.threads[id].proc == Some(d.peer) && y.sched.threads[id].state == SchedModel.Ready
    ensures exists l :: 0 <= l <= d.prio && l < PRIO_LEVELS
                        && Shaped(y.sched.ready) && y.sched.threads[id].hart < MAX_HARTS
                        && id in y.sched.ready[y.sched.threads[id].hart][l]
  {
    var s := y.sched;
    var t := s.threads[id];
    BoostIsBest(t.prio, d.peer, s.donations);
    var l := Eff(t, s.donations);
    assert Holds(s.ready[t.hart][l], Places(s.threads, s.donations), At(t.hart, l));
    assert id in s.ready[t.hart][l];
  }

  // ----- Counting -----

  lemma {:induction false} SendTidsJoin(a: seq<PendingSend>, p: PendingSend)
    ensures SendTids(a + [p]) == SendTids(a) + [p.tid]
  {
    if a != [] {
      assert (a + [p])[1..] == a[1..] + [p];
      SendTidsJoin(a[1..], p);
    }
  }

  lemma {:induction false} RecvTidsJoin(a: seq<PendingRecv>, p: PendingRecv)
    ensures RecvTids(a + [p]) == RecvTids(a) + [p.tid]
  {
    if a != [] {
      assert (a + [p])[1..] == a[1..] + [p];
      RecvTidsJoin(a[1..], p);
    }
  }

  lemma {:induction false} TransitTidsJoin(a: seq<Transit>, b: seq<Transit>)
    ensures TransitTids(a + b) == TransitTids(a) + TransitTids(b)
  {
    if a == [] {
      assert a + b == b;
    } else {
      assert (a + b)[1..] == a[1..] + b;
      TransitTidsJoin(a[1..], b);
    }
  }

  lemma TransitTidsLast(a: seq<Transit>, t: Transit)
    ensures TransitTids(a + [t]) == TransitTids(a) + [t.tid]
  {
    TransitTidsJoin(a, [t]);
    assert TransitTids([t]) == [t.tid];
  }

  lemma {:induction false} SendTidsCut(a: seq<PendingSend>, k: nat, x: nat)
    requires k < |a|
    ensures Count(SendTids(a), x) == Count(SendTids(Cut(a, k)), x) + (if a[k].tid == x then 1 else 0)
  {
    CountCons(a[0].tid, SendTids(a[1..]), x);
    if k == 0 {
      assert Cut(a, k) == a[1..];
    } else {
      SendTidsCut(a[1..], k - 1, x);
      assert Cut(a, k)[1..] == Cut(a[1..], k - 1);
      CountCons(a[0].tid, SendTids(Cut(a[1..], k - 1)), x);
    }
  }

  lemma {:induction false} RecvTidsCut(a: seq<PendingRecv>, k: nat, x: nat)
    requires k < |a|
    ensures Count(RecvTids(a), x) == Count(RecvTids(Cut(a, k)), x) + (if a[k].tid == x then 1 else 0)
  {
    CountCons(a[0].tid, RecvTids(a[1..]), x);
    if k == 0 {
      assert Cut(a, k) == a[1..];
    } else {
      RecvTidsCut(a[1..], k - 1, x);
      assert Cut(a, k)[1..] == Cut(a[1..], k - 1);
      CountCons(a[0].tid, RecvTids(Cut(a[1..], k - 1)), x);
    }
  }

  lemma {:induction false} TransitTidsCut(a: seq<Transit>, k: nat, x: nat)
    requires k < |a|
    ensures Count(TransitTids(a), x) == Count(TransitTids(Cut(a, k)), x) + (if a[k].tid == x then 1 else 0)
  {
    CountCons(a[0].tid, TransitTids(a[1..]), x);
    if k == 0 {
      assert Cut(a, k) == a[1..];
    } else {
      TransitTidsCut(a[1..], k - 1, x);
      assert Cut(a, k)[1..] == Cut(a[1..], k - 1);
      CountCons(a[0].tid, TransitTids(Cut(a[1..], k - 1)), x);
    }
  }

  lemma CountLast(l: seq<nat>, a: nat, x: nat)
    ensures Count(l + [a], x) == Count(l, x) + (if a == x then 1 else 0)
  {
    CountJoin(l, [a], x);
  }

  // ----- Steps under the IPC lock -----

  /** The thread that hart `h` runs may start an IPC operation: it belongs to a process and is in no other. */
  predicate CanCall(y: Sys, h: nat) {
    && h < |y.sched.current| && y.sched.current[h] < |y.sched.threads| == |y.phase|
    && y.sched.threads[y.sched.current[h]].proc.Some? && y.phase[y.sched.current[h]] == Outside
  }

  function SendStep(y: Sys, h: nat, dst: nat, msg: seq<nat>): (r: Sys)
    requires CanCall(y, h)
  {
    var tid := y.sched.current[h];
    var (ipc, peer) := Send(y.ipc, tid, y.sched.threads[tid].proc.value, dst, msg);
    if peer.Some? then y.(ipc := ipc, transit := y.transit + [Transit(peer.value.tid, Message(msg))])
    else y.(ipc := ipc, phase := y.phase[tid := Registered(Some(dst))])
  }

  function RecvStep(y: Sys, h: nat, src: nat): (r: Sys)
    requires CanCall(y, h)
  {
    var tid := y.sched.current[h];
    var (ipc, peer) := Recv(y.ipc, tid, y.sched.threads[tid].proc.value, src);
    if peer.Some? then y.(ipc := ipc, transit := y.transit + [Transit(peer.value.tid, Ack)])
    else y.(ipc := ipc, phase := y.phase[tid := Registered(if src == ACCEPT_ANY then None else Some(src))])
  }

  /** What the receive returns to its caller if it need not wait. */
  function RecvReturns(y: Sys, h: nat, src: nat): (words: Option<seq<nat>>)
    requires CanCall(y, h)
  {
    var tid := y.sched.current[h];
    var peer := Recv(y.ipc, tid, y.sched.threads[tid].proc.value, src).1;
    if peer.Some? then Some(peer.value.msg) else None
  }

  /** Handing a token from a queue to the transit list leaves all counts as they were. */
  lemma SendStepTokens(y: Sys, h: nat, dst: nat, msg: seq<nat>)
    requires CanCall(y, h) && ExactlyOne(y)
    ensures ExactlyOne(SendStep(y, h, dst, msg))
  {
    var r, tid := SendStep(y, h, dst, msg), y.sched.current[h];
    var pid := y.sched.threads[tid].proc.value;
    var k := Receiver(y.ipc.recvs, dst, pid);
    forall x: nat ensures Tokens(r, x) == if InIpc(r.phase, x) then 1 else 0 {
      assert Tokens(y, x) == if InIpc(y.phase, x) then 1 else 0;
      if k < |y.ipc.recvs| {
        RecvTidsCut(y.ipc.recvs, k, x);
        TransitTidsLast(y.transit, Transit(y.ipc.recvs[k].tid, Message(msg)));
        CountLast(TransitTids(y.transit), y.ipc.recvs[k].tid, x);
      } else {
        SendTidsJoin(y.ipc.sends, PendingSend(tid, pid, dst, msg));
        CountLast(SendTids(y.ipc.sends), tid, x);
      }
    }
  }

  lemma RecvStepTokens(y: Sys, h: nat, src: nat)
    requires CanCall(y, h) && ExactlyOne(y)
    ensures ExactlyOne(RecvStep(y, h, src))
  {
    var r, tid := RecvStep(y, h, src), y.sched.current[h];
    var pid := y.sched.threads[tid].proc.value;
    var k := SendPos(y.ipc.sends, src, pid);
    forall x: nat ensures Tokens(r, x) == if InIpc(r.phase, x) then 1 else 0 {
      assert Tokens(y, x) == if InIpc(y.phase, x) then 1 else 0;
      if k < |y.ipc.sends| {
        SendTidsCut(y.ipc.sends, k, x);
        TransitTidsLast(y.transit, Transit(y.ipc.sends[k].tid, Ack));
        CountLast(TransitTids(y.transit), y.ipc.sends[k].tid, x);
      } else {
        RecvTidsJoin(y.ipc.recvs, PendingRecv(tid, pid, src));
        CountLast(RecvTids(y.ipc.recvs), tid, x);
      }
    }
  }

  /** A thread that runs may enter the window before blocking. */
  lemma EnterWindow(y: Sys, tid: nat, p: Phase)
    requires Phases(y.sched, y.phase) && DonationsLive(y.sched.donations, y.phase)
    requires tid < |y.phase| && y.phase[tid] == Outside && p.Registered?
    requires var t := y.sched.threads[tid]; t.proc.Some? && t.state == Running && y.sched.current[t.hart] == tid
    ensures Phases(y.sched, y.phase[tid := p]) && DonationsLive(y.sched.donations, y.phase[tid := p])
  {
  }

  lemma SendStepInv(y: Sys, h: nat, dst: nat, msg: seq<nat>)
    requires SysInv(y) && CanCall(y, h) && |msg| == MSG_WORDS
    requires y.sched.threads[y.sched.current[h]].proc != Some(ACCEPT_ANY)
    ensures SysInv(SendStep(y, h, dst, msg))
  {
    var tid := y.sched.current[h];
    SendStepTokens(y, h, dst, msg);
    SendUnmatched(y.ipc, tid, y.sched.threads[tid].proc.value, dst, msg);
    EnterWindow(y, tid, Registered(Some(dst)));
  }

  lemma RecvStepInv(y: Sys, h: nat, src: nat)
    requires SysInv(y) && CanCall(y, h)
    ensures SysInv(RecvStep(y, h, src))
  {
    var tid := y.sched.current[h];
    RecvStepTokens(y, h, src);
    RecvUnmatched(y.ipc, tid, y.sched.threads[tid].proc.value, src);
    EnterWindow(y, tid, Registered(if src == ACCEPT_ANY then None else Some(src)));
  }

  function Errors(tids: seq<nat>): (r: seq<Transit>)
    ensures forall i :: 0 <= i < |r| ==> DeliveryOk(r[i].d)
  {
    if tids == [] then [] else [Transit(tids[0], PeerGone(ENOENT))] + Errors(tids[1..])
  }

  lemma {:induction false} ErrorsTids(tids: seq<nat>)
    ensures TransitTids(Errors(tids)) == tids
  {
    if tids != [] {
      ErrorsTids(tids[1..]);
      assert Errors(tids)[1..] == Errors(tids[1..]);
    }
  }

  /** `purge_process` */
  function PurgeStep(y: Sys, pid: nat): (r: Sys) {
    var (ipc, woken) := Purge(y.ipc, pid);
    y.(ipc := ipc, transit := y.transit + Errors(woken))
  }

  lemma PurgeTokens(y: Sys, pid: nat, x: nat)
    ensures Tokens(PurgeStep(y, pid), x)
            == Tokens(y, x) - Count(OwnSends(y.ipc.sends, pid), x) - Count(OwnRecvs(y.ipc.recvs, pid), x)
  {
    var (ipc, woken) := Purge(y.ipc, pid);
    PurgeCleans(y.ipc, pid);
    ErrorsTids(woken);
    TransitTidsJoin(y.transit, Errors(woken));
    CountJoin(TransitTids(y.transit), woken, x);
  }

  /**
    A purge turns every removed entry of a survivor into one error on its way. It keeps the invariant exactly
    when the process has no entry of its own left: such an entry goes without a word to its thread.
  */
  lemma PurgeStepIff(y: Sys, pid: nat)
    requires SysInv(y)
    ensures SysInv(PurgeStep(y, pid)) <==> OwnSends(y.ipc.sends, pid) == [] && OwnRecvs(y.ipc.recvs, pid) == []
  {
    var r := PurgeStep(y, pid);
    var sends, recvs := OwnSends(y.ipc.sends, pid), OwnRecvs(y.ipc.recvs, pid);
    if sends == [] && recvs == [] {
      PurgeUnmatched(y.ipc, pid);
      forall x: nat ensures Tokens(r, x) == if InIpc(r.phase, x) then 1 else 0 {
        assert Tokens(y, x) == if InIpc(y.phase, x) then 1 else 0;
        PurgeTokens(y, pid, x);
      }
    } else {
      var x := if sends != [] then sends[0] else recvs[0];
      assert Tokens(y, x) == if InIpc(y.phase, x) then 1 else 0;
      PurgeTokens(y, pid, x);
      assert Tokens(r, x) < Tokens(y, x);
    }
  }

  // ----- Steps under the scheduler lock -----

  /** `donate_on_block` */
  function DonateStep(y: Sys, h: nat): (r: Sys)
    requires SysInv(y) && CanDonate(y, h)
  {
    var tid := y.sched.current[h];
    NoDonationYet(y, tid);
    y.(sched := Register(y.sched, tid, y.phase[tid].peer.value), phase := y.phase[tid := Donated(y.phase[tid].peer)])
  }

  predicate CanDonate(y: Sys, h: nat) {
    && h < |y.sched.current| && y.sched.current[h] < |y.phase|
    && y.phase[y.sched.current[h]].Registered? && y.phase[y.sched.current[h]].peer.Some?
  }

  /** A thread that has not donated has no donation, so registering one never overwrites another. */
  lemma NoDonationYet(y: Sys, tid: nat)
    requires SysInv(y) && tid < |y.phase| && !Donor(y.phase[tid])
    ensures EntryOf(y.sched.donations, tid) == |y.sched.donations| && tid < |y.sched.threads|
  {
    var ds := y.sched.donations;
    var i := EntryOf(ds, tid);
    assert forall k :: 0 <= k < |ds| ==> ds[k] in ds;
  }

  lemma DonateStepInv(y: Sys, h: nat)
    requires SysInv(y) && CanDonate(y, h)
    ensures SysInv(DonateStep(y, h))
  {
    var tid := y.sched.current[h];
    var peer := y.phase[tid].peer.value;
    NoDonationYet(y, tid);
    RegisterInv(y.sched, tid, peer);
    var r := DonateStep(y, h);
    var d := Donation(tid, peer, Eff(y.sched.threads[tid], y.sched.donations));
    assert r.sched.donations == y.sched.donations + [d];
    DonorsGrow(y.sched.donations, y.phase, tid, d);
    SameTokens(y, r);
  }

  lemma DonorsGrow(ds: seq<Donation>, phase: seq<Phase>, tid: nat, d: Donation)
    requires DonationsLive(ds, phase) && tid < |phase| && phase[tid] == Registered(Some(d.peer)) && d.donor == tid
    ensures DonationsLive(ds + [d], phase[tid := Donated(Some(d.peer))])
  {
    var ds', phase' := ds + [d], phase[tid := Donated(Some(d.peer))];
    forall id: nat | id < |phase'| && Donor(phase'[id]) ensures exists e :: e in ds' && e.donor == id {
      if id == tid {
        assert d in ds';
      } else {
        var e :| e in ds && e.donor == id;
        assert e in ds';
      }
    }
  }

  lemma SameTokens(y: Sys, r: Sys)
    requires ExactlyOne(y) && r.ipc == y.ipc && r.transit == y.transit
    requires forall x: nat :: Stored(r.sched.threads, x) == Stored(y.sched.threads, x)
    requires forall x: nat :: InIpc(r.phase, x) == InIpc(y.phase, x)
    ensures ExactlyOne(r)
  {
    forall x: nat ensures Tokens(r, x) == if InIpc(r.phase, x) then 1 else 0 {
      assert Tokens(y, x) == if InIpc(y.phase, x) then 1 else 0;
    }
  }

  /** Finishing an operation takes its donation, and only that, off the table. */
  lemma DonorsShrink(ds: seq<Donation>, ds': seq<Donation>, phase: seq<Phase>, tid: nat)
    requires DonationsLive(ds, phase) && tid < |phase|
    requires forall e: Donation :: e in ds' <==> e in ds && e.donor != tid
    ensures DonationsLive(ds', phase[tid := Outside])
  {
    var phase' := phase[tid := Outside];
    forall id: nat | id < |phase'| && Donor(phase'[id]) ensures exists e :: e in ds' && e.donor == id {
      var e :| e in ds && e.donor == id;
      assert e in ds';
    }
  }

  predicate AtBlock(y: Sys, h: nat) {
    && h < |y.sched.current| && y.sched.current[h] < |y.phase|
    && var p := y.phase[y.sched.current[h]]; p.Donated? || p == Registered(None)
  }

  /** A user thread blocks in its trap. */
  predicate UserAtBlock(y: Sys, h: nat, frame: seq<nat>, regs: Context) {
    && AtBlock(y, h) && h < MAX_HARTS && |frame| == FRAME_WORDS && |regs.s| == 12
    && y.sched.current[h] < |y.sched.threads| && y.sched.threads[y.sched.current[h]].user
  }

  /** A kernel thread blocks. */
  predicate KernelAtBlock(y: Sys, h: nat, regs: Context) {
    && AtBlock(y, h) && h < MAX_HARTS && |regs.s| == 12
    && y.sched.current[h] < |y.sched.threads| && !y.sched.threads[y.sched.current[h]].user
  }

  /** `block_user_from_trap` by a thread that found no peer; the frame is what it continues from if it stays. */
  function BlockStep(y: Sys, h: nat, frame: seq<nat>, regs: Context): (r: (Sys, Outcome, seq<nat>))
    requires SysInv(y) && UserAtBlock(y, h, frame, regs)
  {
    var tid := y.sched.current[h];
    assert PhaseFits(y.sched.threads[tid], y.phase[tid], true);
    var (s, o, f) := BlockUser(y.sched, h, frame, regs);
    (y.(sched := s, phase := y.phase[tid := if o == Stay then Outside else Waiting(y.phase[tid].peer)]), o, f)
  }

  lemma ConsumedTokens(y: Sys, r: Sys, tid: nat)
    requires ExactlyOne(y) && r.ipc == y.ipc && r.transit == y.transit && tid < |y.sched.threads| == |y.phase|
    requires y.sched.threads[tid].ipcWake != NoWake && y.phase[tid] != Outside
    requires r.sched.threads == y.sched.threads[tid := y.sched.threads[tid].(ipcWake := NoWake)]
    requires r.phase == y.phase[tid := Outside]
    ensures ExactlyOne(r)
  {
    forall x: nat ensures Tokens(r, x) == if InIpc(r.phase, x) then 1 else 0 {
      assert Tokens(y, x) == if InIpc(y.phase, x) then 1 else 0;
    }
  }

  lemma ConsumedPhases(s: Sched, r: Sched, phase: seq<Phase>, tid: nat)
    requires Phases(s, phase) && tid < |phase| && s.threads[tid].state == Running
    requires r.threads == s.threads[tid := s.threads[tid].(ipcWake := NoWake)] && r.current == s.current
    ensures Phases(r, phase[tid := Outside])
  {
    forall id: nat | id < |phase|
      ensures r.threads[id].hart < MAX_HARTS
      ensures PhaseFits(r.threads[id], phase[tid := Outside][id], r.current[r.threads[id].hart] == id)
    {
      assert PhaseFits(s.threads[id], phase[id], s.current[s.threads[id].hart] == id);
    }
  }

  /** The blocked thread waits; the thread that takes over was in no operation; no other thread is touched. */
  lemma SleepPhases(s: Sched, r: Sched, phase: seq<Phase>, h: nat, next: nat, t: Thread)
    requires Phases(s, phase) && h < MAX_HARTS && s.current[h] < |phase| && next < |phase| && next != s.current[h]
    requires s.threads[s.current[h]].hart == h == s.threads[next].hart == t.hart && phase[s.current[h]] != Outside
    requires s.threads[next].state == Ready || s.threads[next].proc == None
    requires t.proc.Some? && t.state == Blocked && t.ipcWake == NoWake && (t.user || !t.frameValid)
    requires r.threads == s.threads[s.current[h] := t][next := s.threads[next].(state := Running)]
    requires r.current == s.current[h := next]
    ensures Phases(r, phase[s.current[h] := Waiting(phase[s.current[h]].peer)])
  {
    var tid := s.current[h];
    var phase' := phase[tid := Waiting(phase[tid].peer)];
    forall id: nat | id < |phase'|
      ensures r.threads[id].hart < MAX_HARTS
      ensures PhaseFits(r.threads[id], phase'[id], r.current[r.threads[id].hart] == id)
    {
      assert PhaseFits(s.threads[id], phase[id], s.current[s.threads[id].hart] == id);
    }
  }

  lemma WaitersDonate(ds: seq<Donation>, phase: seq<Phase>, tid: nat)
    requires DonationsLive(ds, phase) && tid < |phase| && (phase[tid].Donated? || phase[tid] == Registered(None))
    ensures DonationsLive(ds, phase[tid := Waiting(phase[tid].peer)])
  {
    var phase' := phase[tid := Waiting(phase[tid].peer)];
    forall id: nat | id < |phase'| && Donor(phase'[id]) ensures exists e :: e in ds && e.donor == id {
      assert Donor(phase[id]);
    }
  }

  /** The current thread of `h` takes its kept result and ends its donation. */
  ghost predicate Takes(s: Sched, h: nat, r: Sched)
    requires Sized(s) && h < MAX_HARTS
  {
    var cur := s.current[h];
    && s.threads[cur].ipcWake != NoWake && r.current == s.current
    && r.threads == s.threads[cur := s.threads[cur].(ipcWake := NoWake)]
    && forall e: Donation :: e in r.donations <==> e in s.donations && e.donor != cur
  }

  lemma TakenInv(y: Sys, h: nat, s: Sched)
    requires SysInv(y) && AtBlock(y, h) && h < MAX_HARTS && Inv(s) && Takes(y.sched, h, s)
    ensures SysInv(y.(sched := s, phase := y.phase[y.sched.current[h] := Outside]))
  {
    var tid := y.sched.current[h];
    var r := y.(sched := s, phase := y.phase[tid := Outside]);
    DonorsShrink(y.sched.donations, s.donations, y.phase, tid);
    ConsumedTokens(y, r, tid);
    ConsumedPhases(y.sched, s, y.phase, tid);
  }

  /** The current thread of `h` becomes `t`, which waits for its result, and `next` takes over. */
  ghost predicate Sleeps(s: Sched, h: nat, t: Thread, r: Sched, next: nat)
    requires Sized(s) && h < MAX_HARTS
  {
    var cur := s.current[h];
    && next < |s.threads| && next != cur && r.donations == s.donations && r.current == s.current[h := next]
    && s.threads[next].hart == h && (s.threads[next].state == Ready || next == s.idle[h])
    && r.threads == s.threads[cur := t][next := s.threads[next].(state := Running)]
    && t.state == Blocked && t.ipcWake == s.threads[cur].ipcWake == NoWake && t.hart == h
    && t.proc == s.threads[cur].proc && (t.user || !t.frameValid)
  }

  lemma SleptInv(y: Sys, h: nat, t: Thread, s: Sched, next: nat)
    requires SysInv(y) && AtBlock(y, h) && h < MAX_HARTS && Inv(s) && Sleeps(y.sched, h, t, s, next)
    ensures SysInv(y.(sched := s, phase := y.phase[y.sched.current[h] := Waiting(y.phase[y.sched.current[h]].peer)]))
  {
    var tid := y.sched.current[h];
    var r := y.(sched := s, phase := y.phase[tid := Waiting(y.phase[tid].peer)]);
    SleeperFits(y.sched, s, y.phase, h, next, t);
    WaitersDonate(y.sched.donations, y.phase, tid);
    SameTokens(y, r);
  }

  lemma SleeperFits(s: Sched, r: Sched, phase: seq<Phase>, h: nat, next: nat, t: Thread)
    requires Inv(s) && Phases(s, phase) && h < MAX_HARTS && phase[s.current[h]] != Outside && Sleeps(s, h, t, r, next)
    ensures Phases(r, phase[s.current[h] := Waiting(phase[s.current[h]].peer)])
  {
    var tid := s.current[h];
    assert PhaseFits(s.threads[tid], phase[tid], s.current[s.threads[tid].hart] == tid);
    SleepPhases(s, r, phase, h, next, t);
  }

  /** A user thread whose result has come already takes it and does not block; any other user thread blocks. */
  lemma BlockStepInv(y: Sys, h: nat, frame: seq<nat>, regs: Context, gp: nat)
    requires SysInv(y) && UserAtBlock(y, h, frame, regs)
    ensures var (r, o, f) := BlockStep(y, h, frame, regs);
            var w := y.sched.threads[y.sched.current[h]].ipcWake;
            && SysInv(r) && Resumes(r.sched, h, o, gp)
            && (w != NoWake ==> o == Stay && WakeOk(w) && f == Written(frame, Unkept(w)))
            && (w == NoWake ==> o.Switched? && r.sched.threads[y.sched.current[h]].state == Blocked)
  {
    var tid := y.sched.current[h];
    assert PhaseFits(y.sched.threads[tid], y.phase[tid], true);
    BlockUserInv(y.sched, h, frame, regs, gp);
    var (s, o, f) := BlockUser(y.sched, h, frame, regs);
    if y.sched.threads[tid].ipcWake != NoWake {
      TakenInv(y, h, s);
    } else {
      SleptInv(y, h, Asleep(y.sched.threads[tid], frame, regs), s, o.next);
    }
  }

  // ----- Kernel threads -----

  /** `block_current` by a kernel thread that found no peer; when it returns, the thread takes its call as done. */
  function KernelBlock(y: Sys, h: nat, regs: Context): (r: (Sys, Outcome))
    requires SysInv(y) && KernelAtBlock(y, h, regs)
  {
    var tid := y.sched.current[h];
    assert PhaseFits(y.sched.threads[tid], y.phase[tid], true);
    var (s, o) := BlockCurrent(y.sched, h, regs);
    (y.(sched := s, phase := y.phase[tid := if o == Stay then Outside else Waiting(y.phase[tid].peer)]), o)
  }

  /** A wake-up left over from elsewhere is consumed instead of the result: the entry stays, and nobody waits for it. */
  lemma AbandonedEntry(y: Sys, tid: nat, s: Sched)
    requires SysInv(y) && InIpc(y.phase, tid) && tid < |y.sched.threads|
    requires s.threads == y.sched.threads[tid := y.sched.threads[tid].(woken := false)]
    ensures var r := y.(sched := s, phase := y.phase[tid := Outside]);
            Tokens(r, tid) == 1 && !InIpc(r.phase, tid) && !ExactlyOne(r)
  {
    assert Tokens(y, tid) == if InIpc(y.phase, tid) then 1 else 0;
  }

  /**
    A kernel thread whose result has come already takes it; any other blocks if no wake-up is recorded for
    it. The invariant survives exactly then: with a recorded wake-up and no result the call returns while its
    entry or result is still outstanding.
  */
  lemma KernelBlockIff(y: Sys, h: nat, regs: Context, gp: nat)
    requires SysInv(y) && KernelAtBlock(y, h, regs)
    ensures var (r, o) := KernelBlock(y, h, regs);
            var tid, t := y.sched.current[h], y.sched.threads[y.sched.current[h]];
            && (SysInv(r) <==> t.ipcWake != NoWake || !t.woken) && Resumes(r.sched, h, o, gp)
            && (t.ipcWake != NoWake ==> o == Stay && r.sched.threads[tid].ipcMsg == t.ipcMsg)
            && (t.ipcWake == NoWake && !t.woken ==> o.Switched? && r.sched.threads[tid].state == Blocked)
            && (t.ipcWake == NoWake && t.woken ==> o == Stay && Tokens(r, tid) == 1 && !InIpc(r.phase, tid))
  {
    var tid := y.sched.current[h];
    var t := y.sched.threads[tid];
    assert PhaseFits(t, y.phase[tid], true);
    BlockCurrentInv(y.sched, h, regs, gp);
    var (s, o) := BlockCurrent(y.sched, h, regs);
    if t.ipcWake != NoWake {
      TakenInv(y, h, s);
    } else if t.woken {
      AbandonedEntry(y, tid, s);
    } else {
      SleptInv(y, h, Parked(t, regs), s, o.next);
    }
  }

  /** The `i`-th result on its way reaches its thread. */
  function DeliverStep(y: Sys, i: nat): (r: Sys)
    requires SysInv(y) && i < |y.transit|
  {
    Addressee(y, i);
    var tid := y.transit[i].tid;
    y.(sched := Deliver(y.sched, tid, y.transit[i].d), transit := Cut(y.transit, i),
       phase := if y.sched.threads[tid].state == Blocked then y.phase[tid := Outside] else y.phase)
  }

  /** A result on its way belongs to an unfinished operation, and nothing has been kept for that thread yet. */
  lemma Addressee(y: Sys, i: nat)
    requires SysInv(y) && i < |y.transit|
    ensures var tid := y.transit[i].tid;
            && tid < |y.sched.threads| == |y.phase| && y.phase[tid] != Outside && y.sched.threads[tid].ipcWake == NoWake
            && CanServe(y.sched, tid, y.transit[i].d)
            && (y.sched.threads[tid].state == Blocked <==> y.phase[tid].Waiting?)
  {
    var tid := y.transit[i].tid;
    TransitTidsCut(y.transit, i, tid);
    assert Tokens(y, tid) == if InIpc(y.phase, tid) then 1 else 0;
    assert PhaseFits(y.sched.threads[tid], y.phase[tid], y.sched.current[y.sched.threads[tid].hart] == tid);
  }

  /** At most one result is on its way to a thread, so a thread gets its results in the order of its calls. */
  lemma OneResult(y: Sys, i: nat, j: nat)
    requires SysInv(y) && i < |y.transit| && j < |y.transit| && y.transit[i].tid == y.transit[j].tid
    ensures i == j
  {
    var tid := y.transit[i].tid;
    assert Tokens(y, tid) == if InIpc(y.phase, tid) then 1 else 0;
    TransitTidsCut(y.transit, i, tid);
    if i != j {
      var k := if j < i then j else j - 1;
      assert Cut(y.transit, i)[k] == y.transit[j];
      TransitTidsCut(Cut(y.transit, i), k, tid);
    }
  }

  lemma DeliverStepInv(y: Sys, i: nat)
    requires SysInv(y) && i < |y.transit|
    ensures SysInv(DeliverStep(y, i))
  {
    Addressee(y, i);
    DeliverInv(y.sched, y.transit[i].tid, y.transit[i].d);
    DeliveredInv(y, i, Deliver(y.sched, y.transit[i].tid, y.transit[i].d));
  }

  lemma DeliveredInv(y: Sys, i: nat, s: Sched)
    requires SysInv(y) && i < |y.transit| && CanServe(y.sched, y.transit[i].tid, y.transit[i].d)
    requires Inv(s) && Delivers(y.sched, y.transit[i].tid, y.transit[i].d, s) && y.transit[i].tid < |y.phase|
    ensures var tid := y.transit[i].tid;
            SysInv(y.(sched := s, transit := Cut(y.transit, i),
                      phase := if y.sched.threads[tid].state == Blocked then y.phase[tid := Outside] else y.phase))
  {
    Addressee(y, i);
    var tid := y.transit[i].tid;
    var phase := if y.sched.threads[tid].state == Blocked then y.phase[tid := Outside] else y.phase;
    var r := y.(sched := s, transit := Cut(y.transit, i), phase := phase);
    DeliveredTokens(y, i, r);
    DeliveredPhases(y.sched, s, y.phase, tid, y.transit[i].d);
    if y.sched.threads[tid].state == Blocked {
      DonorsShrink(y.sched.donations, s.donations, y.phase, tid);
    }
    assert forall k :: 0 <= k < |r.transit| ==> r.transit[k] == y.transit[if k < i then k else k + 1];
  }

  lemma DeliveredTokens(y: Sys, i: nat, r: Sys)
    requires ExactlyOne(y) && i < |y.transit| && r.ipc == y.ipc && r.transit == Cut(y.transit, i)
    requires var tid := y.transit[i].tid;
             && tid < |y.sched.threads| == |y.phase| && |r.sched.threads| == |y.sched.threads|
             && y.phase[tid] != Outside
             && (forall x: nat :: x < |y.phase| && x != tid ==> r.sched.threads[x] == y.sched.threads[x])
             && if y.sched.threads[tid].state == Blocked
                then r.phase == y.phase[tid := Outside] && r.sched.threads[tid].ipcWake == NoWake
                else
                  && r.phase == y.phase && r.sched.threads[tid].ipcWake != NoWake
                  && y.sched.threads[tid].ipcWake == NoWake
    ensures ExactlyOne(r)
  {
    forall x: nat ensures Tokens(r, x) == if InIpc(r.phase, x) then 1 else 0 {
      assert Tokens(y, x) == if InIpc(y.phase, x) then 1 else 0;
      TransitTidsCut(y.transit, i, x);
    }
  }

  lemma DeliveredPhases(s: Sched, r: Sched, phase: seq<Phase>, tid: nat, d: Delivery)
    requires Sized(s) && Phases(s, phase) && CanServe(s, tid, d) && Delivers(s, tid, d, r)
    requires phase[tid] != Outside && (s.threads[tid].state == Blocked <==> phase[tid].Waiting?)
    ensures Phases(r, if s.threads[tid].state == Blocked then phase[tid := Outside] else phase)
  {
    var phase' := if s.threads[tid].state == Blocked then phase[tid := Outside] else phase;
    forall id: nat | id < |phase'|
      ensures r.threads[id].hart < MAX_HARTS
      ensures PhaseFits(r.threads[id], phase'[id], r.current[r.threads[id].hart] == id)
    {
      assert PhaseFits(s.threads[id], phase[id], s.current[s.threads[id].hart] == id);
    }
  }
}
