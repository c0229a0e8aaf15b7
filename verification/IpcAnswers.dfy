/**
  The end of an IPC call, over every interleaving: what was settled when the call was paired, or its peer purged, is
  what the caller finds, in the frame it trapped with or in its mailbox.
*/
module IpcAnswers {
  import opened Common
  import opened SchedModel
  import opened SchedSteps
  import opened SchedWake
  import opened IpcSystem
  import opened IpcRuns
  import opened IpcMessages

  // ----- The step that ends a call -----

  /** Thread `tid` takes its result at this step: it is delivered to the sleeper, or found when it wants to sleep. */
  predicate EndsBy(y: Sys, op: Op, tid: nat) {
    && tid < |y.sched.threads|
    && match op
       case Delivering(i) =>
         i < |y.transit| && y.transit[i].tid == tid && y.sched.threads[tid].state == Blocked
       case Sleeping(h, _, _) =>
         h < |y.sched.current| && y.sched.current[h] == tid && y.sched.threads[tid].ipcWake != NoWake
       case KernelSleeping(h, _) =>
         h < |y.sched.current| && y.sched.current[h] == tid && y.sched.threads[tid].ipcWake != NoWake
       case _ => false
  }

  lemma TrapEnds(y: Sys, h: nat, frame: seq<nat>, regs: Context, tid: nat)
    requires SysInv(y) && UserAtBlock(y, h, frame, regs) && InIpc(y.phase, tid)
    requires !InIpc(BlockStep(y, h, frame, regs).0.phase, tid)
    ensures EndsBy(y, Sleeping(h, frame, regs), tid)
  {
    BlockStepInv(y, h, frame, regs, 0);
  }

  lemma ParkEnds(y: Sys, h: nat, regs: Context, tid: nat)
    requires SysInv(y) && KernelAtBlock(y, h, regs) && InIpc(y.phase, tid)
    requires !InIpc(KernelBlock(y, h, regs).0.phase, tid)
    requires var t := y.sched.threads[y.sched.current[h]]; t.ipcWake != NoWake || !t.woken
    ensures EndsBy(y, KernelSleeping(h, regs), tid)
  {
    KernelBlockIff(y, h, regs, 0);
  }

  lemma DeliverEnds(y: Sys, i: nat, tid: nat)
    requires SysInv(y) && i < |y.transit| && InIpc(y.phase, tid) && !InIpc(DeliverStep(y, i).phase, tid)
    ensures EndsBy(y, Delivering(i), tid)
  {
    Addressee(y, i);
  }

  lemma CallEnds(y: Sys, op: Op, tid: nat)
    requires SysInv(y) && Enabled(y, op) && IsIpc(op) && InIpc(y.phase, tid) && !InIpc(IpcStep(y, op).0.phase, tid)
    ensures EndsBy(y, op, tid)
  {
    match op
    case Sleeping(h, frame, regs) => TrapEnds(y, h, frame, regs, tid);
    case KernelSleeping(h, regs) => ParkEnds(y, h, regs, tid);
    case Delivering(i) => DeliverEnds(y, i, tid);
    case _ =>
  }

  lemma StepEnds(y: Sys, op: Op, gp: nat, tid: nat)
    requires SysInv(y) && Enabled(y, op) && InIpc(y.phase, tid) && !InIpc(Step(y, op, gp).0.phase, tid)
    ensures IsIpc(op) && EndsBy(y, op, tid)
  {
    if IsIpc(op) { CallEnds(y, op, tid); }
  }

  function FrameOf(s: Sched, tid: nat): (f: seq<nat>) {
    if tid < |s.threads| then s.threads[tid].frame else []
  }

  function BoxOf(s: Sched, tid: nat): (m: Option<seq<nat>>) {
    if tid < |s.threads| then s.threads[tid].ipcMsg else None
  }

  /** The frame with which a user thread returns from a call that ends with this step. */
  function FrameAfter(y: Sys, op: Op, tid: nat): (f: seq<nat>)
    requires SysInv(y) && Enabled(y, op) && IsIpc(op)
  {
    match op
    case Sleeping(h, frame, regs) => BlockStep(y, h, frame, regs).2
    case _ => FrameOf(IpcStep(y, op).0.sched, tid)
  }

  /** The frame that such a thread trapped with. */
  function FrameBefore(y: Sys, op: Op, tid: nat): (f: seq<nat>) {
    match op
    case Sleeping(_, frame, _) => frame
    case _ => FrameOf(y.sched, tid)
  }

  lemma OwedIsOk(y: Sys, tid: nat, d: Delivery)
    requires SysInv(y) && Owed(y, tid, d)
    ensures DeliveryOk(d)
  {
    InIpcExists(y, tid);
    if Arrived(y.sched, tid, d) {
      assert PhaseFits(y.sched.threads[tid], y.phase[tid], y.sched.current[y.sched.threads[tid].hart] == tid);
    } else {
      var i :| 0 <= i < |y.transit| && y.transit[i] == Transit(tid, d);
    }
  }

  /** What is delivered to a sleeper is what it was owed. */
  lemma OwedDelivery(y: Sys, i: nat, tid: nat, d: Delivery)
    requires SysInv(y) && i < |y.transit| && y.transit[i].tid == tid && Owed(y, tid, d)
    ensures y.transit[i].d == d
  {
    Addressee(y, i);
    var j :| 0 <= j < |y.transit| && y.transit[j] == Transit(tid, d);
    OneResult(y, i, j);
  }

  lemma DeliveredAnswer(s: Sched, tid: nat, d: Delivery, r: Sched)
    requires Sized(s) && CanServe(s, tid, d) && Delivers(s, tid, d, r) && s.threads[tid].state == Blocked
    ensures Answered(FrameOf(s, tid), FrameOf(r, tid), d, false) && Mailed(BoxOf(r, tid), d, false)
    ensures s.threads[tid].user ==> tid < |r.latest| && r.latest[tid] == FromFrame(FrameOf(r, tid))
  {
    AnsweredLaw(s.threads[tid].frame, d);
    MailedLaw(d);
  }

  lemma DeliverAnswers(y: Sys, i: nat, tid: nat, d: Delivery)
    requires SysInv(y) && EndsBy(y, Delivering(i), tid) && Owed(y, tid, d)
    ensures var r := DeliverStep(y, i).sched;
            && Answered(FrameOf(y.sched, tid), FrameOf(r, tid), d, false) && Mailed(BoxOf(r, tid), d, false)
            && (y.sched.threads[tid].user ==> tid < |r.latest| && r.latest[tid] == FromFrame(FrameOf(r, tid)))
  {
    OwedDelivery(y, i, tid, d);
    Addressee(y, i);
    DeliverInv(y.sched, tid, d);
    DeliveredAnswer(y.sched, tid, d, Deliver(y.sched, tid, d));
  }

  /** What is found before sleeping is what was owed. */
  lemma OwedKept(y: Sys, tid: nat, d: Delivery)
    requires SysInv(y) && Owed(y, tid, d) && tid < |y.sched.threads| && y.sched.threads[tid].ipcWake != NoWake
    ensures Arrived(y.sched, tid, d)
  {
    if Coming(y, tid, d) {
      var i :| 0 <= i < |y.transit| && y.transit[i] == Transit(tid, d);
      Addressee(y, i);
    }
  }

  lemma TrapAnswers(y: Sys, h: nat, frame: seq<nat>, regs: Context, tid: nat, d: Delivery)
    requires SysInv(y) && UserAtBlock(y, h, frame, regs) && EndsBy(y, Sleeping(h, frame, regs), tid) && Owed(y, tid, d)
    ensures Answered(frame, BlockStep(y, h, frame, regs).2, d, true)
  {
    OwedIsOk(y, tid, d);
    OwedKept(y, tid, d);
    BlockStepInv(y, h, frame, regs, 0);
    AnsweredLaw(frame, d);
  }

  lemma ParkAnswers(y: Sys, h: nat, regs: Context, tid: nat, d: Delivery)
    requires SysInv(y) && KernelAtBlock(y, h, regs) && EndsBy(y, KernelSleeping(h, regs), tid) && Owed(y, tid, d)
    ensures Mailed(BoxOf(KernelBlock(y, h, regs).0.sched, tid), d, true)
  {
    OwedIsOk(y, tid, d);
    OwedKept(y, tid, d);
    KernelBlockIff(y, h, regs, 0);
    BlockCurrentInv(y.sched, h, regs, 0);
    MailedLaw(d);
  }

  /** The caller finds what it was owed: a user thread in its frame, a kernel thread in its mailbox. */
  lemma EndAnswers(y: Sys, op: Op, tid: nat, d: Delivery)
    requires SysInv(y) && Enabled(y, op) && IsIpc(op) && EndsBy(y, op, tid) && Owed(y, tid, d)
    ensures var r := IpcStep(y, op).0.sched;
            if y.sched.threads[tid].user
            then Answered(FrameBefore(y, op, tid), FrameAfter(y, op, tid), d, !op.Delivering?)
            else Mailed(BoxOf(r, tid), d, !op.Delivering?)
  {
    match op
    case Delivering(i) => DeliverAnswers(y, i, tid, d);
    case Sleeping(h, frame, regs) => TrapAnswers(y, h, frame, regs, tid, d);
    case KernelSleeping(h, regs) => ParkAnswers(y, h, regs, tid, d);
  }

  // ----- The frame of a sleeper -----

  /** Thread `tid` goes to sleep by this step, with this frame. */
  predicate SleepsBy(y: Sys, op: Op, tid: nat) {
    op.Sleeping? && op.h < |y.sched.current| && y.sched.current[op.h] == tid
  }

  /** Thread `tid` has the same frame and is of the same kind. */
  predicate SameFrame(s: Sched, r: Sched, tid: nat) {
    && tid < |s.threads| && tid < |r.threads| && r.threads[tid].user == s.threads[tid].user
    && r.threads[tid].frame == s.threads[tid].frame
  }

  predicate SameKind(s: Sched, r: Sched, tid: nat) {
    tid < |s.threads| && tid < |r.threads| && r.threads[tid].user == s.threads[tid].user
  }

  lemma HartFrame(y: Sys, op: HartOp, gp: nat, tid: nat)
    requires SysInv(y) && HartEnabled(y, op) && InIpc(y.phase, tid)
    ensures SameKind(y.sched, HartStep(y, op, gp).0, tid)
    ensures y.phase[tid].Waiting? ==> SameFrame(y.sched, HartStep(y, op, gp).0, tid)
  {
    InIpcExists(y, tid);
    if !op.Taking? {
      HartLocal(y, op, gp);
      LocalFrame(y.sched, HartStep(y, op, gp).0, op.h, tid);
    }
  }

  lemma LocalFrame(s: Sched, r: Sched, h: nat, tid: nat)
    requires Inv(s) && Local(s, r, h) && tid < |s.threads|
    ensures SameKind(s, r, tid) && (s.threads[tid].state == Blocked ==> SameFrame(s, r, tid))
  {
  }

  lemma JoinsFrame(s: Sched, r: Sched, t: Thread, tid: nat)
    requires Joins(s, r, t) && tid < |s.threads| && s.threads[tid].state != Exited && NewSlot(s) <= |s.threads|
    ensures SameFrame(s, r, tid)
  {
  }

  lemma SpawnFrame(y: Sys, t: Thread, tid: nat)
    requires SysInv(y) && NewThread(t) && HasRoom(y.sched) && tid < |y.sched.threads|
    requires y.sched.threads[tid].state != Exited
    ensures SameFrame(y.sched, SpawnStep(y, t).sched, tid)
  {
    NewThreadOk(t);
    SpawnInv(y.sched, t);
    JoinsFrame(y.sched, Spawn(y.sched, t), t, tid);
  }

  lemma SpawnOwnedFrame(y: Sys, t: Thread, pid: nat, tid: nat)
    requires SysInv(y) && NewThread(t) && t.proc == None && HasRoom(y.sched) && tid < |y.sched.threads|
    requires y.sched.threads[tid].state != Exited
    ensures SameFrame(y.sched, SpawnOwnedStep(y, t, pid).sched, tid)
  {
    NewThreadOk(t);
    SpawnInv(y.sched, t);
    SpawnOwnedInv(y.sched, t, pid);
    JoinsFrame(y.sched, SpawnOwned(y.sched, t, pid), t.(proc := Some(pid)), tid);
  }

  lemma WakeFrame(s: Sched, id: nat, tid: nat)
    requires Inv(s) && tid < |s.threads|
    ensures SameFrame(s, Wake(s, id), tid)
  {
  }

  lemma MoveFrame(s: Sched, id: nat, hart: nat, tid: nat)
    requires Inv(s) && id < |s.threads| && s.threads[id].state in {Ready, Blocked} && tid < |s.threads|
    ensures SameFrame(s, SetAffinity(s, id, hart), tid)
  {
  }

  /** Thread `tid` is in the same phase, and if it sleeps it has the same frame. */
  predicate StillSleeps(y: Sys, r: Sys, tid: nat) {
    && tid < |y.phase| && tid < |r.phase| && r.phase[tid] == y.phase[tid] && SameKind(y.sched, r.sched, tid)
    && (y.phase[tid].Waiting? ==> SameFrame(y.sched, r.sched, tid))
  }

  lemma HartStillSleeps(y: Sys, op: HartOp, gp: nat, tid: nat)
    requires SysInv(y) && HartEnabled(y, op) && InIpc(y.phase, tid)
    ensures StillSleeps(y, y.(sched := HartStep(y, op, gp).0), tid)
  {
    HartFrame(y, op, gp, tid);
  }

  lemma FrameStillSleeps(y: Sys, r: Sys, tid: nat)
    requires SameFrame(y.sched, r.sched, tid) && tid < |y.phase| && tid < |r.phase| && r.phase[tid] == y.phase[tid]
    ensures StillSleeps(y, r, tid)
  {
  }

  lemma WakeStillSleeps(y: Sys, id: nat, tid: nat)
    requires SysInv(y) && InIpc(y.phase, tid)
    ensures StillSleeps(y, WakeStep(y, id), tid)
  {
    InIpcExists(y, tid);
    WakeFrame(y.sched, id, tid);
    FrameStillSleeps(y, WakeStep(y, id), tid);
  }

  lemma MoveStillSleeps(y: Sys, id: nat, hart: nat, tid: nat)
    requires SysInv(y) && InIpc(y.phase, tid) && id < |y.sched.threads| && y.sched.threads[id].state in {Ready, Blocked}
    ensures StillSleeps(y, MoveStep(y, id, hart), tid)
  {
    InIpcExists(y, tid);
    MoveFrame(y.sched, id, hart, tid);
    FrameStillSleeps(y, MoveStep(y, id, hart), tid);
  }

  lemma SpawnStillSleeps(y: Sys, t: Thread, tid: nat)
    requires SysInv(y) && InIpc(y.phase, tid) && NewThread(t) && HasRoom(y.sched)
    ensures StillSleeps(y, SpawnStep(y, t), tid)
  {
    InIpcExists(y, tid);
    SpawnFrame(y, t, tid);
    FrameStillSleeps(y, SpawnStep(y, t), tid);
  }

  lemma SpawnOwnedStillSleeps(y: Sys, t: Thread, pid: nat, tid: nat)
    requires SysInv(y) && InIpc(y.phase, tid) && NewThread(t) && t.proc == None && HasRoom(y.sched)
    ensures StillSleeps(y, SpawnOwnedStep(y, t, pid), tid)
  {
    InIpcExists(y, tid);
    SpawnOwnedFrame(y, t, pid, tid);
    FrameStillSleeps(y, SpawnOwnedStep(y, t, pid), tid);
  }

  /** Steps outside IPC calls leave the frame of a sleeper, and its phase. */
  lemma OtherFrame(y: Sys, op: Op, gp: nat, tid: nat)
    requires SysInv(y) && Enabled(y, op) && !IsIpc(op) && InIpc(y.phase, tid)
    ensures StillSleeps(y, Step(y, op, gp).0, tid)
  {
    match op
    case OnHart(hop) => HartStillSleeps(y, hop, gp, tid);
    case Waking(id) => WakeStillSleeps(y, id, tid);
    case Moving(id, hart) => MoveStillSleeps(y, id, hart, tid);
    case Spawning(t) => SpawnStillSleeps(y, t, tid);
    case SpawningOwned(t, pid) => SpawnOwnedStillSleeps(y, t, pid, tid);
  }

  /** What a blocking call does to other threads, and to its own. */
  lemma BlocksFrame(s: Sched, h: nat, frame: seq<nat>, regs: Context, r: Sched, o: Outcome, f: seq<nat>, tid: nat)
    requires Sized(s) && CanBlock(s, h, frame, regs) && Blocks(s, h, frame, regs, r, o, f) && tid < |s.threads|
    ensures SameKind(s, r, tid) && (s.current[h] != tid ==> SameFrame(s, r, tid))
    ensures s.current[h] == tid && o.Switched? ==> r.threads[tid].frame == frame
  {
  }

  lemma TrapFrame(y: Sys, h: nat, frame: seq<nat>, regs: Context, tid: nat)
    requires SysInv(y) && UserAtBlock(y, h, frame, regs) && tid < |y.sched.threads|
    ensures var r := BlockStep(y, h, frame, regs).0;
            && SameKind(y.sched, r.sched, tid) && (y.sched.current[h] != tid ==> SameFrame(y.sched, r.sched, tid))
            && (y.sched.current[h] == tid && InIpc(r.phase, tid) ==> r.sched.threads[tid].frame == frame)
  {
    assert PhaseFits(y.sched.threads[y.sched.current[h]], y.phase[y.sched.current[h]], true);
    BlockUserInv(y.sched, h, frame, regs, 0);
    var (r, o, f) := BlockUser(y.sched, h, frame, regs);
    BlocksFrame(y.sched, h, frame, regs, r, o, f, tid);
  }

  lemma ParkFrame(y: Sys, h: nat, regs: Context, tid: nat)
    requires SysInv(y) && KernelAtBlock(y, h, regs) && tid < |y.sched.threads|
    ensures SameFrame(y.sched, KernelBlock(y, h, regs).0.sched, tid)
  {
    assert PhaseFits(y.sched.threads[y.sched.current[h]], y.phase[y.sched.current[h]], true);
    BlockCurrentInv(y.sched, h, regs, 0);
  }

  lemma DeliverFrame(y: Sys, i: nat, tid: nat)
    requires SysInv(y) && i < |y.transit| && tid < |y.sched.threads|
    ensures var r := DeliverStep(y, i);
            SameKind(y.sched, r.sched, tid) && (InIpc(r.phase, tid) ==> SameFrame(y.sched, r.sched, tid))
  {
    Addressee(y, i);
    DeliverInv(y.sched, y.transit[i].tid, y.transit[i].d);
  }

  /** A user thread that sleeps afterwards slept before, with the same frame, or goes to sleep with frame `f`. */
  predicate SleepsWith(y: Sys, r: Sys, tid: nat, falls: bool, f: seq<nat>) {
    && SameKind(y.sched, r.sched, tid) && tid < |y.phase| && tid < |r.phase|
    && (y.sched.threads[tid].user && r.phase[tid].Waiting? ==>
          if falls then FrameOf(r.sched, tid) == f
          else y.phase[tid].Waiting? && FrameOf(r.sched, tid) == FrameOf(y.sched, tid))
  }

  lemma StillSleepsWith(y: Sys, r: Sys, tid: nat, f: seq<nat>)
    requires StillSleeps(y, r, tid)
    ensures SleepsWith(y, r, tid, false, f)
  {
  }

  lemma TrapSleeps(y: Sys, h: nat, frame: seq<nat>, regs: Context, tid: nat)
    requires SysInv(y) && UserAtBlock(y, h, frame, regs) && InIpc(y.phase, tid)
    requires InIpc(BlockStep(y, h, frame, regs).0.phase, tid)
    ensures SleepsWith(y, BlockStep(y, h, frame, regs).0, tid, y.sched.current[h] == tid, frame)
  {
    InIpcExists(y, tid);
    TrapFrame(y, h, frame, regs, tid);
  }

  lemma ParkSleeps(y: Sys, h: nat, regs: Context, tid: nat, f: seq<nat>)
    requires SysInv(y) && KernelAtBlock(y, h, regs) && InIpc(y.phase, tid)
    ensures SleepsWith(y, KernelBlock(y, h, regs).0, tid, false, f)
  {
    InIpcExists(y, tid);
    ParkFrame(y, h, regs, tid);
  }

  lemma DeliverSleeps(y: Sys, i: nat, tid: nat, f: seq<nat>)
    requires SysInv(y) && i < |y.transit| && InIpc(y.phase, tid) && InIpc(DeliverStep(y, i).phase, tid)
    ensures SleepsWith(y, DeliverStep(y, i), tid, false, f)
  {
    InIpcExists(y, tid);
    DeliverFrame(y, i, tid);
  }

  lemma DonateSleeps(y: Sys, h: nat, tid: nat, f: seq<nat>)
    requires SysInv(y) && CanDonate(y, h) && InIpc(y.phase, tid)
    ensures SleepsWith(y, DonateStep(y, h), tid, false, f)
  {
    InIpcExists(y, tid);
    NoDonationYet(y, y.sched.current[h]);
  }

  /** Nothing but `phase` of a thread that does not sleep changes. */
  lemma QueueSleeps(y: Sys, r: Sys, tid: nat, f: seq<nat>)
    requires SysInv(y) && InIpc(y.phase, tid) && r.sched == y.sched && |r.phase| == |y.phase|
    requires r.phase[tid] == y.phase[tid]
    ensures SleepsWith(y, r, tid, false, f)
  {
  }

  /** The frame with which this step puts its caller to sleep. */
  function Puts(op: Op): (f: seq<nat>) {
    if op.Sleeping? then op.frame else []
  }

  lemma CallFrame(y: Sys, op: Op, tid: nat)
    requires SysInv(y) && Enabled(y, op) && IsIpc(op) && InIpc(y.phase, tid) && InIpc(IpcStep(y, op).0.phase, tid)
    ensures SleepsWith(y, IpcStep(y, op).0, tid, SleepsBy(y, op, tid), Puts(op))
  {
    match op
    case Donating(h) => DonateSleeps(y, h, tid, []);
    case Sleeping(h, frame, regs) => TrapSleeps(y, h, frame, regs, tid);
    case KernelSleeping(h, regs) => ParkSleeps(y, h, regs, tid, []);
    case Delivering(i) => DeliverSleeps(y, i, tid, []);
    case Sending(h, dst, msg) => QueueSleeps(y, SendStep(y, h, dst, msg), tid, []);
    case Receiving(h, src) => QueueSleeps(y, RecvStep(y, h, src), tid, []);
    case Purging(pid) => QueueSleeps(y, PurgeStep(y, pid), tid, []);
  }

  /** The frame a user thread has handed over when it sleeps. */
  lemma StepFrame(y: Sys, op: Op, gp: nat, tid: nat)
    requires SysInv(y) && Enabled(y, op) && InIpc(y.phase, tid) && InIpc(Step(y, op, gp).0.phase, tid)
    ensures SleepsWith(y, Step(y, op, gp).0, tid, SleepsBy(y, op, tid), Puts(op))
  {
    if IsIpc(op) {
      CallFrame(y, op, tid);
    } else {
      OtherFrame(y, op, gp, tid);
      StillSleepsWith(y, Step(y, op, gp).0, tid, Puts(op));
    }
  }
}
