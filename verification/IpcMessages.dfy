/**
  What a caller finds in its registers, or in its mailbox, when its IPC call is over: over every interleaving the words
  of a receiver are those of the send it was paired with, and a sender or a survivor gets its acknowledgement or error.
*/
module IpcMessages {
  import opened Common
  import opened SchedModel
  import opened SchedSteps
  import opened SchedWake
  import opened IpcModel
  import opened IpcSystem
  import opened IpcRuns

  // ----- Registers -----

  /** The call that trapped with frame `f` returns with `g`: `a0`, and the instruction behind the call. */
  predicate Returns(f: seq<nat>, g: seq<nat>, a0: nat) {
    && |f| == FRAME_WORDS == |g| && g[X_A0] == a0 && g[FRAME_SEPC] == f[FRAME_SEPC] + 4
    && forall i :: 0 <= i < FRAME_WORDS && i != X_A0 && i != FRAME_SEPC && !(X_A1 <= i < X_A1 + MSG_WORDS) ==>
         g[i] == f[i]
  }

  /** `a1..a5` are these words. */
  predicate Carries(g: seq<nat>, words: seq<nat>) {
    |g| == FRAME_WORDS && |words| == MSG_WORDS && forall i :: 0 <= i < MSG_WORDS ==> g[X_A1 + i] == words[i]
  }

  /** `a1..a5` are as they were. */
  predicate SameArgs(f: seq<nat>, g: seq<nat>) {
    |f| == FRAME_WORDS == |g| && forall i :: X_A1 <= i < X_A1 + MSG_WORDS ==> g[i] == f[i]
  }

  /** The words a sender passes: its `a1..a5`. */
  function Args(f: seq<nat>): (words: seq<nat>)
    requires |f| == FRAME_WORDS
    ensures |words| == MSG_WORDS && Carries(f, words)
  {
    f[X_A1..X_A1 + MSG_WORDS]
  }

  const ZEROS: seq<nat> := [0, 0, 0, 0, 0]

  /** The register law of a delivery, message, acknowledgement or error. */
  lemma WrittenLaw(f: seq<nat>, d: Delivery)
    requires |f| == FRAME_WORDS && DeliveryOk(d)
    ensures var g := Written(f, d);
            && Returns(f, g, if d.PeerGone? then d.code else 0)
            && (if d.Message? then Carries(g, d.words) else SameArgs(f, g))
  {
  }

  /** The frame of a caller after its call ended with `d`; `early` says that the result came before it blocked. */
  predicate Answered(f: seq<nat>, g: seq<nat>, d: Delivery, early: bool) {
    && Returns(f, g, if d.PeerGone? then d.code else 0)
    && match d
       case Message(words) => Carries(g, words)
       case Ack => if early then Carries(g, ZEROS) else SameArgs(f, g)
       case PeerGone(_) => SameArgs(f, g)
  }

  lemma AnsweredLaw(f: seq<nat>, d: Delivery)
    requires |f| == FRAME_WORDS && DeliveryOk(d)
    ensures Answered(f, Written(f, d), d, false) && Answered(f, Written(f, Unkept(Kept(d))), d, true)
  {
    WrittenLaw(f, d);
    WrittenLaw(f, Unkept(Kept(d)));
  }

  lemma AnsweredArgs(f: seq<nat>, e: seq<nat>, g: seq<nat>, early: bool)
    requires |f| == FRAME_WORDS && Answered(e, g, Message(Args(f)), early)
    ensures SameArgs(f, g)
  {
    forall i | X_A1 <= i < X_A1 + MSG_WORDS ensures g[i] == f[i] {
      assert g[X_A1 + (i - X_A1)] == Args(f)[i - X_A1];
    }
  }

  /** What a kernel thread finds in its mailbox. */
  predicate Mailed(box: Option<seq<nat>>, d: Delivery, early: bool) {
    match d
    case Message(words) => box == Some(words)
    case Ack => box == if early then Some(ZEROS) else None
    case PeerGone(code) => box == Some([code, code, code, code, code])
  }

  lemma MailedLaw(d: Delivery)
    requires DeliveryOk(d)
    ensures Mailed(Mail(d), d, false) && Mailed(Some(EarlyMail(d)), d, true)
  {
    assert seq(MSG_WORDS, i => 0) == ZEROS;
    if d.PeerGone? { assert seq(MSG_WORDS, i => d.code) == [d.code, d.code, d.code, d.code, d.code]; }
  }

  // ----- A result that is settled -----

  /** The result `d` for thread `tid` is on its way. */
  ghost predicate Coming(y: Sys, tid: nat, d: Delivery) {
    exists i :: 0 <= i < |y.transit| && y.transit[i] == Transit(tid, d)
  }

  /** It has come and is kept. */
  predicate Arrived(s: Sched, tid: nat, d: Delivery) {
    tid < |s.threads| && s.threads[tid].ipcWake == Kept(d) && s.threads[tid].ipcMsg == Some(EarlyMail(d))
  }

  ghost predicate Owed(y: Sys, tid: nat, d: Delivery) {
    InIpc(y.phase, tid) && (Coming(y, tid, d) || Arrived(y.sched, tid, d))
  }

  /** Results that are on their way stay so while others are added. */
  lemma MoreComing(y: Sys, r: Sys, tid: nat, d: Delivery)
    requires Coming(y, tid, d) && |y.transit| <= |r.transit| && r.transit[..|y.transit|] == y.transit
    ensures Coming(r, tid, d)
  {
    var i :| 0 <= i < |y.transit| && y.transit[i] == Transit(tid, d);
    assert r.transit[..|y.transit|][i] == Transit(tid, d);
  }

  lemma InIpcExists(y: Sys, tid: nat)
    requires SysInv(y) && InIpc(y.phase, tid)
    ensures tid < |y.sched.threads| && y.sched.threads[tid].state != Exited
    ensures y.phase[tid].Waiting? <==> y.sched.threads[tid].state == Blocked
  {
    assert PhaseFits(y.sched.threads[tid], y.phase[tid], y.sched.current[y.sched.threads[tid].hart] == tid);
  }

  /** A thread whose result has come and is kept gets no other. */
  lemma KeptAlone(y: Sys, i: nat, tid: nat)
    requires SysInv(y) && i < |y.transit| && tid < |y.sched.threads| && y.sched.threads[tid].ipcWake != NoWake
    ensures y.transit[i].tid != tid
  {
    Addressee(y, i);
  }

  /** Thread `tid` has the same result kept, and the same mail. */
  predicate SameKept(s: Sched, r: Sched, tid: nat) {
    && tid < |s.threads| && tid < |r.threads| && r.threads[tid].ipcWake == s.threads[tid].ipcWake
    && r.threads[tid].ipcMsg == s.threads[tid].ipcMsg
  }

  lemma CutComing(y: Sys, r: Sys, i: nat, tid: nat, d: Delivery)
    requires Coming(y, tid, d) && i < |y.transit| && y.transit[i] != Transit(tid, d) && r.transit == Cut(y.transit, i)
    ensures Coming(r, tid, d)
  {
    var j :| 0 <= j < |y.transit| && y.transit[j] == Transit(tid, d);
    assert r.transit[if j < i then j else j - 1] == Transit(tid, d);
  }

  lemma DeliversKept(s: Sched, tid: nat, d: Delivery, r: Sched, id: nat)
    requires Sized(s) && CanServe(s, tid, d) && Delivers(s, tid, d, r) && id < |s.threads|
    ensures id != tid ==> SameKept(s, r, id)
    ensures id == tid && s.threads[tid].state != Blocked ==> Arrived(r, tid, d)
  {
  }

  lemma DeliverOwed(y: Sys, i: nat, tid: nat, d: Delivery)
    requires SysInv(y) && i < |y.transit| && Owed(y, tid, d) && InIpc(DeliverStep(y, i).phase, tid)
    ensures Owed(DeliverStep(y, i), tid, d)
  {
    Addressee(y, i);
    InIpcExists(y, tid);
    var to, r := y.transit[i], DeliverStep(y, i);
    DeliverInv(y.sched, to.tid, to.d);
    DeliversKept(y.sched, to.tid, to.d, r.sched, tid);
    if Arrived(y.sched, tid, d) {
      KeptAlone(y, i, tid);
    } else if to != Transit(tid, d) {
      CutComing(y, r, i, tid, d);
    }
  }

  lemma KeptOwed(y: Sys, r: Sys, tid: nat, d: Delivery)
    requires Owed(y, tid, d) && InIpc(r.phase, tid) && r.transit == y.transit
    requires tid < |y.sched.threads| ==> SameKept(y.sched, r.sched, tid)
    ensures Owed(r, tid, d)
  {
  }

  lemma HartKept(y: Sys, op: HartOp, gp: nat, tid: nat)
    requires SysInv(y) && HartEnabled(y, op) && InIpc(y.phase, tid) && tid < |y.sched.threads|
    ensures SameKept(y.sched, HartStep(y, op, gp).0, tid)
  {
    if !op.Taking? { HartLocal(y, op, gp); }
  }

  lemma TrapKept(y: Sys, h: nat, frame: seq<nat>, regs: Context, tid: nat)
    requires SysInv(y) && UserAtBlock(y, h, frame, regs) && tid < |y.sched.threads| && y.sched.current[h] != tid
    ensures SameKept(y.sched, BlockStep(y, h, frame, regs).0.sched, tid)
  {
    assert PhaseFits(y.sched.threads[y.sched.current[h]], y.phase[y.sched.current[h]], true);
    BlockUserInv(y.sched, h, frame, regs, 0);
  }

  lemma ParkKept(y: Sys, h: nat, regs: Context, tid: nat)
    requires SysInv(y) && KernelAtBlock(y, h, regs) && tid < |y.sched.threads| && y.sched.current[h] != tid
    ensures SameKept(y.sched, KernelBlock(y, h, regs).0.sched, tid)
  {
    assert PhaseFits(y.sched.threads[y.sched.current[h]], y.phase[y.sched.current[h]], true);
    BlockCurrentInv(y.sched, h, regs, 0);
  }

  /** A thread that goes to sleep in its call has had no result yet. */
  lemma TrapOwed(y: Sys, h: nat, frame: seq<nat>, regs: Context, tid: nat, d: Delivery)
    requires SysInv(y) && UserAtBlock(y, h, frame, regs) && Owed(y, tid, d)
    requires InIpc(BlockStep(y, h, frame, regs).0.phase, tid)
    ensures Owed(BlockStep(y, h, frame, regs).0, tid, d)
  {
    var cur := y.sched.current[h];
    if cur == tid {
      BlockStepInv(y, h, frame, regs, 0);
    } else {
      if tid < |y.sched.threads| { TrapKept(y, h, frame, regs, tid); }
      KeptOwed(y, BlockStep(y, h, frame, regs).0, tid, d);
    }
  }

  lemma ParkOwed(y: Sys, h: nat, regs: Context, tid: nat, d: Delivery)
    requires SysInv(y) && KernelAtBlock(y, h, regs) && Owed(y, tid, d) && InIpc(KernelBlock(y, h, regs).0.phase, tid)
    ensures Owed(KernelBlock(y, h, regs).0, tid, d)
  {
    var cur := y.sched.current[h];
    if cur == tid {
      KernelBlockIff(y, h, regs, 0);
    } else {
      if tid < |y.sched.threads| { ParkKept(y, h, regs, tid); }
      KeptOwed(y, KernelBlock(y, h, regs).0, tid, d);
    }
  }

  lemma DonateOwed(y: Sys, h: nat, tid: nat, d: Delivery)
    requires SysInv(y) && CanDonate(y, h) && Owed(y, tid, d)
    ensures Owed(DonateStep(y, h), tid, d)
  {
    NoDonationYet(y, y.sched.current[h]);
  }

  /** Steps under the IPC lock only add results. */
  lemma GrowOwed(y: Sys, r: Sys, tid: nat, d: Delivery)
    requires Owed(y, tid, d) && InIpc(r.phase, tid) && r.sched == y.sched
    requires |y.transit| <= |r.transit| && r.transit[..|y.transit|] == y.transit
    ensures Owed(r, tid, d)
  {
    if Coming(y, tid, d) { MoreComing(y, r, tid, d); }
  }

  lemma CallOwed(y: Sys, op: Op, tid: nat, d: Delivery)
    requires SysInv(y) && Enabled(y, op) && IsIpc(op) && Owed(y, tid, d) && InIpc(IpcStep(y, op).0.phase, tid)
    ensures Owed(IpcStep(y, op).0, tid, d)
  {
    match op
    case Donating(h) => DonateOwed(y, h, tid, d);
    case Sleeping(h, frame, regs) => TrapOwed(y, h, frame, regs, tid, d);
    case KernelSleeping(h, regs) => ParkOwed(y, h, regs, tid, d);
    case Delivering(i) => DeliverOwed(y, i, tid, d);
    case Sending(h, dst, msg) => GrowOwed(y, SendStep(y, h, dst, msg), tid, d);
    case Receiving(h, src) => GrowOwed(y, RecvStep(y, h, src), tid, d);
    case Purging(pid) => GrowOwed(y, PurgeStep(y, pid), tid, d);
  }

  lemma JoinsKept(s: Sched, r: Sched, t: Thread, tid: nat)
    requires Joins(s, r, t) && tid < |s.threads| && s.threads[tid].state != Exited && NewSlot(s) <= |s.threads|
    ensures SameKept(s, r, tid)
  {
  }

  lemma SpawnKept(y: Sys, t: Thread, tid: nat)
    requires SysInv(y) && NewThread(t) && HasRoom(y.sched) && tid < |y.sched.threads|
    requires y.sched.threads[tid].state != Exited
    ensures SameKept(y.sched, SpawnStep(y, t).sched, tid)
  {
    NewThreadOk(t);
    SpawnInv(y.sched, t);
    JoinsKept(y.sched, Spawn(y.sched, t), t, tid);
  }

  lemma SpawnOwnedKept(y: Sys, t: Thread, pid: nat, tid: nat)
    requires SysInv(y) && NewThread(t) && t.proc == None && HasRoom(y.sched) && tid < |y.sched.threads|
    requires y.sched.threads[tid].state != Exited
    ensures SameKept(y.sched, SpawnOwnedStep(y, t, pid).sched, tid)
  {
    NewThreadOk(t);
    SpawnInv(y.sched, t);
    SpawnOwnedInv(y.sched, t, pid);
    JoinsKept(y.sched, SpawnOwned(y.sched, t, pid), t.(proc := Some(pid)), tid);
  }

  lemma WakeKept(s: Sched, id: nat, tid: nat)
    requires Inv(s) && tid < |s.threads|
    ensures SameKept(s, Wake(s, id), tid)
  {
  }

  lemma MoveKept(s: Sched, id: nat, hart: nat, tid: nat)
    requires Inv(s) && id < |s.threads| && s.threads[id].state in {Ready, Blocked} && tid < |s.threads|
    ensures SameKept(s, SetAffinity(s, id, hart), tid)
  {
  }

  /** Steps outside IPC calls. */
  lemma OtherKept(y: Sys, op: Op, gp: nat, tid: nat)
    requires SysInv(y) && Enabled(y, op) && !IsIpc(op) && InIpc(y.phase, tid)
    ensures SameKept(y.sched, Step(y, op, gp).0.sched, tid) && Step(y, op, gp).0.transit == y.transit
  {
    InIpcExists(y, tid);
    match op
    case OnHart(hop) => HartKept(y, hop, gp, tid);
    case Waking(id) => WakeKept(y.sched, id, tid);
    case Moving(id, hart) => MoveKept(y.sched, id, hart, tid);
    case Spawning(t) => SpawnKept(y, t, tid);
    case SpawningOwned(t, pid) => SpawnOwnedKept(y, t, pid, tid);
  }

  /** As long as the call is not over its settled result stays owed. */
  lemma StepOwed(y: Sys, op: Op, gp: nat, tid: nat, d: Delivery)
    requires SysInv(y) && Enabled(y, op) && Owed(y, tid, d) && InIpc(Step(y, op, gp).0.phase, tid)
    ensures Owed(Step(y, op, gp).0, tid, d)
  {
    if IsIpc(op) {
      CallOwed(y, op, tid, d);
    } else {
      OtherKept(y, op, gp, tid);
      KeptOwed(y, Step(y, op, gp).0, tid, d);
    }
  }
}
