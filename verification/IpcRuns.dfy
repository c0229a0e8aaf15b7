/** All interleavings of scheduler and IPC steps on all harts. */
module IpcRuns {
  import opened Common
  import opened ReadyQueues
  import opened SchedModel
  import opened SchedPick
  import opened SchedDonations
  import opened SchedSteps
  import opened SchedWake
  import opened SchedTick
  import opened IpcModel
  import opened IpcSystem

  /** Steps of a hart, or the thread it runs, outside IPC. */
  datatype HartOp =
    | Yielding(h: nat, regs: Context)
    | Blocking(h: nat, regs: Context)
    | Resuming(h: nat)
    | Exiting(h: nat, regs: Context)
    | Idling(h: nat, regs: Context)
    | Ticking(h: nat, frame: seq<nat>)
    | Taking(h: nat)

  datatype Op =
    | OnHart(op: HartOp)
    | Waking(id: nat)
    | Moving(id: nat, hart: nat)
    | Spawning(t: Thread)
    | SpawningOwned(t: Thread, pid: nat)
    | Sending(h: nat, dst: nat, msg: seq<nat>)
    | Receiving(h: nat, src: nat)
    | Donating(h: nat)
    | Sleeping(h: nat, frame: seq<nat>, regs: Context)
    | KernelSleeping(h: nat, regs: Context)
    | Delivering(i: nat)
    | Purging(pid: nat)

  /** The thread that hart `h` runs is not inside the window of an IPC call. */
  predicate Free(y: Sys, h: nat) {
    h < MAX_HARTS && h < |y.sched.current| && y.sched.current[h] < |y.phase| && y.phase[y.sched.current[h]] == Outside
  }

  /** In the window of its call a user thread has interrupts off; a kernel thread may be preempted, or yield. */
  predicate MayLeave(y: Sys, op: HartOp) {
    && op.h < MAX_HARTS && op.h < |y.sched.current| && y.sched.current[op.h] < |y.sched.threads|
    && !y.sched.threads[y.sched.current[op.h]].user && (op.Yielding? || op.Ticking?)
  }

  /** A thread as `spawn` or `spawn_user` makes it. */
  ghost predicate NewThread(t: Thread) {
    (exists entry: nat, sp: nat, gp: nat, prio: nat, hart: nat :: hart < MAX_HARTS &&
      t == KernelThread(entry, sp, gp, prio, hart)) ||
    (exists pid: nat, pc: nat, sp: nat, argc: nat, argv: nat, prio: nat, hart: nat ::
       hart < MAX_HARTS && t == UserThread(pid, pc, sp, argc, argv, prio, hart))
  }

  ghost predicate HartEnabled(y: Sys, op: HartOp)
    requires SysInv(y)
  {
    && (Free(y, op.h) || MayLeave(y, op))
    && var cur := y.sched.current[op.h];
       match op
       case Yielding(h, regs) => !y.sched.threads[cur].user && |regs.s| == 12
       case Blocking(h, regs) => !y.sched.threads[cur].user && cur != y.sched.idle[h] && |regs.s| == 12
       case Resuming(h) => true
       case Exiting(h, regs) => cur != y.sched.idle[h] && |regs.s| == 12
       case Idling(h, regs) => cur == y.sched.idle[h] && |regs.s| == 12
       case Ticking(h, frame) => |frame| == FRAME_WORDS
       case Taking(h) => true
  }

  ghost predicate Enabled(y: Sys, op: Op)
    requires SysInv(y)
  {
    match op
    case OnHart(hop) => HartEnabled(y, hop)
    case Waking(id) => !SleepsInIpc(y.phase, id)
    case Moving(id, hart) =>
      id < |y.sched.threads| && y.sched.threads[id].state in {Ready, Blocked} &&
        !IsIdle(y.sched.threads, y.sched.idle, id)
    case Spawning(t) => NewThread(t) && HasRoom(y.sched)
    case SpawningOwned(t, pid) => NewThread(t) && t.proc == None && HasRoom(y.sched)
    case Sending(h, dst, msg) =>
      h < MAX_HARTS && CanCall(y, h) && |msg| == MSG_WORDS &&
        y.sched.threads[y.sched.current[h]].proc != Some(ACCEPT_ANY)
    case Receiving(h, src) => h < MAX_HARTS && CanCall(y, h)
    case Donating(h) => h < MAX_HARTS && CanDonate(y, h)
    case Sleeping(h, frame, regs) => UserAtBlock(y, h, frame, regs)
    case KernelSleeping(h, regs) =>
      && KernelAtBlock(y, h, regs)
      && var t := y.sched.threads[y.sched.current[h]]; t.ipcWake != NoWake || !t.woken
    case Delivering(i) => i < |y.transit|
    case Purging(pid) => OwnSends(y.ipc.sends, pid) == [] && OwnRecvs(y.ipc.recvs, pid) == []
  }

  /** The thread sleeps in an IPC call. */
  predicate SleepsInIpc(phase: seq<Phase>, id: nat) {
    id < |phase| && phase[id].Waiting?
  }

  function Grown(phase: seq<Phase>, n: nat): (r: seq<Phase>) {
    if |phase| < n then phase + [Outside] else phase
  }

  lemma NewThreadOk(t: Thread)
    requires NewThread(t)
    ensures ThreadOk(t) && t.state == Ready && t.ipcWake == NoWake && Fresh(t, Start(t.ctx, t.frame))
  {
  }

  function HartStep(y: Sys, op: HartOp, gp: nat): (r: (Sched, Outcome))
    requires SysInv(y) && HartEnabled(y, op)
  {
    match op
    case Yielding(h, regs) => Yield(y.sched, h, regs)
    case Blocking(h, regs) => BlockCurrent(y.sched, h, regs)
    case Resuming(h) => (AfterBlock(y.sched, h), Stay)
    case Exiting(h, regs) => Exit(y.sched, h, regs)
    case Idling(h, regs) => IdleRound(y.sched, h, regs)
    case Ticking(h, frame) => Tick(y.sched, h, frame, gp)
    case Taking(h) => (TakeMsg(y.sched, h).0, Stay)
  }

  function WakeStep(y: Sys, id: nat): (r: Sys)
    requires Inv(y.sched)
  {
    y.(sched := Wake(y.sched, id))
  }

  function MoveStep(y: Sys, id: nat, hart: nat): (r: Sys)
    requires Inv(y.sched) && id < |y.sched.threads| && y.sched.threads[id].state in {Ready, Blocked}
  {
    y.(sched := SetAffinity(y.sched, id, hart))
  }

  function UserSleep(y: Sys, h: nat, frame: seq<nat>, regs: Context): (r: (Sys, Outcome))
    requires SysInv(y) && UserAtBlock(y, h, frame, regs)
  {
    var (r, o, f) := BlockStep(y, h, frame, regs);
    (r, o)
  }

  function SpawnStep(y: Sys, t: Thread): (r: Sys)
    requires Inv(y.sched) && NewThread(t) && HasRoom(y.sched)
  {
    NewThreadOk(t);
    var s := Spawn(y.sched, t);
    y.(sched := s, phase := Grown(y.phase, |s.threads|))
  }

  function SpawnOwnedStep(y: Sys, t: Thread, pid: nat): (r: Sys)
    requires Inv(y.sched) && NewThread(t) && t.proc == None && HasRoom(y.sched)
  {
    NewThreadOk(t);
    var s := SpawnOwned(y.sched, t, pid);
    y.(sched := s, phase := Grown(y.phase, |s.threads|))
  }

  predicate IsIpc(op: Op) {
    !op.OnHart? && !op.Waking? && !op.Moving? && !op.Spawning? && !op.SpawningOwned?
  }

  /** The steps of IPC calls. */
  function IpcStep(y: Sys, op: Op): (r: (Sys, Outcome))
    requires SysInv(y) && Enabled(y, op) && IsIpc(op)
  {
    match op
    case Sending(h, dst, msg) => (SendStep(y, h, dst, msg), Stay)
    case Receiving(h, src) => (RecvStep(y, h, src), Stay)
    case Donating(h) => (DonateStep(y, h), Stay)
    case Sleeping(h, frame, regs) => UserSleep(y, h, frame, regs)
    case KernelSleeping(h, regs) => KernelBlock(y, h, regs)
    case Delivering(i) => (DeliverStep(y, i), Stay)
    case Purging(pid) => (PurgeStep(y, pid), Stay)
  }

  /** The new state and, for a step of a hart, what the hart does next. */
  function Step(y: Sys, op: Op, gp: nat): (r: (Sys, Outcome))
    requires SysInv(y) && Enabled(y, op)
  {
    match op
    case OnHart(hop) => var (s, o) := HartStep(y, hop, gp); (y.(sched := s), o)
    case Waking(id) => (WakeStep(y, id), Stay)
    case Moving(id, hart) => (MoveStep(y, id, hart), Stay)
    case Spawning(t) => (SpawnStep(y, t), Stay)
    case SpawningOwned(t, pid) => (SpawnOwnedStep(y, t, pid), Stay)
    case _ => IpcStep(y, op)
  }

  // ----- Steps that do not concern IPC -----

  /** A step of a hart that does not put a caller to sleep disturbs no operation. */
  lemma LocalKeeps(y: Sys, h: nat, s: Sched)
    requires SysInv(y) && h < MAX_HARTS && Inv(s) && Local(y.sched, s, h)
    requires Free(y, h) || (!y.sched.threads[y.sched.current[h]].user && StaysUp(s, y.sched.current[h]))
    ensures SysInv(y.(sched := s))
  {
    var r := y.(sched := s);
    SameTokens(y, r);
    forall id: nat | id < |y.phase|
      ensures s.threads[id].hart < MAX_HARTS
      ensures PhaseFits(s.threads[id], y.phase[id], s.current[s.threads[id].hart] == id)
    {
      assert PhaseFits(y.sched.threads[id], y.phase[id], y.sched.current[y.sched.threads[id].hart] == id);
    }
  }

  lemma OnePhases(s: Sched, r: Sched, phase: seq<Phase>, id: nat, t: Thread)
    requires Phases(s, phase) && id < |phase| && t.hart < MAX_HARTS && PhaseFits(t, phase[id], s.current[t.hart] == id)
    requires r.threads == s.threads[id := t] && r.current == s.current
    ensures Phases(r, phase)
  {
    forall k: nat | k < |phase|
      ensures r.threads[k].hart < MAX_HARTS && PhaseFits(r.threads[k], phase[k], r.current[r.threads[k].hart] == k)
    {
      assert PhaseFits(s.threads[k], phase[k], s.current[s.threads[k].hart] == k);
    }
  }

  /** So does a change of one thread that keeps its kept result and still fits its phase. */
  lemma OneKeeps(y: Sys, id: nat, t: Thread, s: Sched)
    requires SysInv(y) && Inv(s) && id < |y.phase|
    requires s.threads == y.sched.threads[id := t] && s.donations == y.sched.donations && s.current == y.sched.current
    requires t.ipcWake == y.sched.threads[id].ipcWake
    requires t.hart < MAX_HARTS && PhaseFits(t, y.phase[id], y.sched.current[t.hart] == id)
    ensures SysInv(y.(sched := s))
  {
    SameTokens(y, y.(sched := s));
    OnePhases(y.sched, s, y.phase, id, t);
  }

  /**
    A wake-up keeps the invariant exactly when it is not for a thread that sleeps in an IPC call: such a
    thread would go on although its entry or result is still outstanding.
  */
  lemma WakingIff(y: Sys, id: nat)
    requires SysInv(y)
    ensures SysInv(y.(sched := Wake(y.sched, id))) <==> !SleepsInIpc(y.phase, id)
  {
    WakeInv(y.sched, id);
    if id < |y.sched.threads| {
      var t := y.sched.threads[id];
      assert PhaseFits(t, y.phase[id], y.sched.current[t.hart] == id);
      if SleepsInIpc(y.phase, id) {
        var r := Wake(y.sched, id);
        assert !PhaseFits(r.threads[id], y.phase[id], r.current[r.threads[id].hart] == id);
      } else {
        OneKeeps(y, id, t.(woken := true, state := if t.state == Blocked then Ready else t.state), Wake(y.sched, id));
      }
    }
  }

  lemma TakingKeeps(y: Sys, h: nat)
    requires SysInv(y) && h < MAX_HARTS
    ensures SysInv(y.(sched := TakeMsg(y.sched, h).0))
  {
    TakeMsgInv(y.sched, h);
    var cur := y.sched.current[h];
    var t := y.sched.threads[cur];
    assert PhaseFits(t, y.phase[cur], y.sched.current[t.hart] == cur);
    OneKeeps(y, cur, t.(ipcMsg := None), TakeMsg(y.sched, h).0);
  }

  lemma MovingKeeps(y: Sys, id: nat, hart: nat)
    requires SysInv(y) && id < |y.sched.threads| && y.sched.threads[id].state in {Ready, Blocked}
    requires !IsIdle(y.sched.threads, y.sched.idle, id)
    ensures SysInv(y.(sched := SetAffinity(y.sched, id, hart)))
  {
    SetAffinityInv(y.sched, id, hart);
    var t := y.sched.threads[id];
    assert PhaseFits(t, y.phase[id], y.sched.current[t.hart] == id);
    var h := if hart < MAX_HARTS then hart else MAX_HARTS - 1;
    OneKeeps(y, id, t.(hart := h), SetAffinity(y.sched, id, hart));
  }

  lemma SpawnPhases(s: Sched, r: Sched, phase: seq<Phase>, t: Thread)
    requires Phases(s, phase) && Joins(s, r, t) && t.hart < MAX_HARTS && t.ipcWake == NoWake && t.state == Ready
    ensures Phases(r, Grown(phase, |r.threads|))
  {
    var phase' := Grown(phase, |r.threads|);
    forall k: nat | k < |phase'|
      ensures r.threads[k].hart < MAX_HARTS && PhaseFits(r.threads[k], phase'[k], r.current[r.threads[k].hart] == k)
    {
      if k < |phase| { assert PhaseFits(s.threads[k], phase[k], s.current[s.threads[k].hart] == k); }
    }
  }

  lemma SpawnTokens(y: Sys, t: Thread, s: Sched)
    requires ExactlyOne(y) && Phases(y.sched, y.phase) && Joins(y.sched, s, t) && t.ipcWake == NoWake
    ensures ExactlyOne(y.(sched := s, phase := Grown(y.phase, |s.threads|)))
  {
    var r := y.(sched := s, phase := Grown(y.phase, |s.threads|));
    forall x: nat ensures Tokens(r, x) == if InIpc(r.phase, x) then 1 else 0 {
      assert Tokens(y, x) == if InIpc(y.phase, x) then 1 else 0;
      if x < |y.phase| {
        assert PhaseFits(y.sched.threads[x], y.phase[x], y.sched.current[y.sched.threads[x].hart] == x);
      }
    }
  }

  lemma SpawnDonations(ds: seq<Donation>, phase: seq<Phase>, n: nat)
    requires DonationsLive(ds, phase)
    ensures DonationsLive(ds, Grown(phase, n))
  {
  }

  /** A new thread is in no operation, and the slot it takes was in none. */
  lemma SpawnKeeps(y: Sys, t: Thread, s: Sched)
    requires SysInv(y) && Inv(s) && Joins(y.sched, s, t) && ThreadOk(t) && t.ipcWake == NoWake && t.state == Ready
    ensures SysInv(y.(sched := s, phase := Grown(y.phase, |s.threads|)))
  {
    SpawnTokens(y, t, s);
    SpawnPhases(y.sched, s, y.phase, t);
    SpawnDonations(y.sched.donations, y.phase, |s.threads|);
  }

  // ----- All steps, all runs -----

  lemma SpawningKeeps(y: Sys, t: Thread)
    requires SysInv(y) && NewThread(t) && HasRoom(y.sched)
    ensures SysInv(SpawnStep(y, t))
  {
    NewThreadOk(t);
    SpawnInv(y.sched, t);
    SpawnKeeps(y, t, Spawn(y.sched, t));
  }

  lemma SpawningOwnedKeeps(y: Sys, t: Thread, pid: nat)
    requires SysInv(y) && NewThread(t) && t.proc == None && HasRoom(y.sched)
    ensures SysInv(SpawnOwnedStep(y, t, pid))
  {
    NewThreadOk(t);
    SpawnOwnedInv(y.sched, t, pid);
    SpawnKeeps(y, t.(proc := Some(pid)), SpawnOwned(y.sched, t, pid));
  }

  lemma HartKeeps(y: Sys, op: HartOp, gp: nat)
    requires SysInv(y) && HartEnabled(y, op)
    ensures var (s, o) := HartStep(y, op, gp); SysInv(y.(sched := s)) && Resumes(s, op.h, o, gp)
  {
    if op.Taking? {
      TakingKeeps(y, op.h);
    } else {
      HartLocal(y, op, gp);
      LocalKeeps(y, op.h, HartStep(y, op, gp).0);
    }
  }

  /** What a step of a hart does is local to it. */
  lemma HartLocal(y: Sys, op: HartOp, gp: nat)
    requires SysInv(y) && HartEnabled(y, op) && !op.Taking?
    ensures var (s, o) := HartStep(y, op, gp);
            && Inv(s) && Resumes(s, op.h, o, gp) && Local(y.sched, s, op.h)
            && (op.Yielding? || op.Ticking? ==> StaysUp(s, y.sched.current[op.h]))
  {
    var cur := y.sched.current[op.h];
    assert Tokens(y, cur) == if InIpc(y.phase, cur) then 1 else 0;
    match op {
      case Yielding(h, regs) => YieldInv(y.sched, h, regs, gp);
      case Blocking(h, regs) => BlockCurrentInv(y.sched, h, regs, gp);
      case Resuming(h) => AfterBlockInv(y.sched, h);
      case Exiting(h, regs) => ExitInv(y.sched, h, regs, gp);
      case Idling(h, regs) => IdleRoundInv(y.sched, h, regs, gp);
      case Ticking(h, frame) => TickInv(y.sched, h, frame, gp);
    }
  }

  /** The hart a switching step belongs to. */
  function HartOf(op: Op): (h: nat) {
    match op
    case OnHart(hop) => hop.h
    case Sleeping(h, _, _) => h
    case KernelSleeping(h, _) => h
    case _ => 0
  }

  /** Every step keeps the invariant, and whatever it resumes continues from its latest save. */
  lemma StepKeeps(y: Sys, op: Op, gp: nat)
    requires SysInv(y) && Enabled(y, op)
    ensures var (r, o) := Step(y, op, gp); SysInv(r) && Resumes(r.sched, HartOf(op), o, gp)
  {
    match op
    case OnHart(hop) => HartKeeps(y, hop, gp);
    case Waking(id) => WakingIff(y, id);
    case Moving(id, hart) => MovingKeeps(y, id, hart);
    case Spawning(t) => SpawningKeeps(y, t);
    case SpawningOwned(t, pid) => SpawningOwnedKeeps(y, t, pid);
    case Sending(h, dst, msg) => SendStepInv(y, h, dst, msg);
    case Receiving(h, src) => RecvStepInv(y, h, src);
    case Donating(h) => DonateStepInv(y, h);
    case Sleeping(h, frame, regs) => BlockStepInv(y, h, frame, regs, gp);
    case KernelSleeping(h, regs) => KernelBlockIff(y, h, regs, gp);
    case Delivering(i) => DeliverStepInv(y, i);
    case Purging(pid) => PurgeStepIff(y, pid);
  }

  /** Thread `id` has the same mail in both states. */
  predicate SameMail(s: Sched, r: Sched, id: nat) {
    id < |s.threads| && id < |r.threads| && r.threads[id].ipcMsg == s.threads[id].ipcMsg
  }

  lemma LocalMail(s: Sched, r: Sched, h: nat, id: nat)
    requires Local(s, r, h) && id < |s.threads|
    ensures SameMail(s, r, id)
  {
  }

  lemma JoinsMail(s: Sched, r: Sched, t: Thread, id: nat)
    requires Joins(s, r, t) && id < |s.threads| && s.threads[id].state != Exited && NewSlot(s) <= |s.threads|
    ensures SameMail(s, r, id)
  {
  }

  lemma UserBlockMail(y: Sys, h: nat, frame: seq<nat>, regs: Context, id: nat)
    requires SysInv(y) && UserAtBlock(y, h, frame, regs) && id < |y.sched.threads|
    ensures SameMail(y.sched, BlockStep(y, h, frame, regs).0.sched, id)
  {
    var cur := y.sched.current[h];
    assert PhaseFits(y.sched.threads[cur], y.phase[cur], true);
    BlockUserInv(y.sched, h, frame, regs, 0);
    var (s, o, f) := BlockUser(y.sched, h, frame, regs);
    BlocksMail(y.sched, h, frame, regs, s, o, f, id);
  }

  lemma BlocksMail(s: Sched, h: nat, frame: seq<nat>, regs: Context, r: Sched, o: Outcome, f: seq<nat>, id: nat)
    requires Sized(s) && CanBlock(s, h, frame, regs) && Blocks(s, h, frame, regs, r, o, f) && id < |s.threads|
    ensures SameMail(s, r, id)
  {
  }

  lemma KernelBlockMail(y: Sys, h: nat, regs: Context, id: nat)
    requires SysInv(y) && KernelAtBlock(y, h, regs) && id < |y.sched.threads|
    ensures SameMail(y.sched, KernelBlock(y, h, regs).0.sched, id)
  {
    var cur := y.sched.current[h];
    assert PhaseFits(y.sched.threads[cur], y.phase[cur], true);
    BlockCurrentInv(y.sched, h, regs, 0);
  }

  lemma HartMail(y: Sys, op: HartOp, gp: nat, id: nat)
    requires SysInv(y) && HartEnabled(y, op) && id < |y.sched.threads| && !(op.Taking? && y.sched.current[op.h] == id)
    ensures SameMail(y.sched, HartStep(y, op, gp).0, id)
  {
    if !op.Taking? {
      HartLocal(y, op, gp);
      LocalMail(y.sched, HartStep(y, op, gp).0, op.h, id);
    }
  }

  lemma WakeMail(s: Sched, k: nat, id: nat)
    requires Inv(s) && id < |s.threads|
    ensures SameMail(s, Wake(s, k), id)
  {
  }

  lemma MoveMail(s: Sched, k: nat, hart: nat, id: nat)
    requires Inv(s) && k < |s.threads| && s.threads[k].state in {Ready, Blocked} && id < |s.threads|
    ensures SameMail(s, SetAffinity(s, k, hart), id)
  {
  }

  /** A delivery is to a thread whose call is not over. */
  lemma LateMail(y: Sys, i: nat, id: nat)
    requires SysInv(y) && i < |y.transit| && !InIpc(y.phase, id) && id < |y.sched.threads|
    ensures SameMail(y.sched, DeliverStep(y, i).sched, id)
  {
    Addressee(y, i);
    DeliverInv(y.sched, y.transit[i].tid, y.transit[i].d);
  }

  lemma SpawnMail(y: Sys, t: Thread, id: nat)
    requires Inv(y.sched) && NewThread(t) && HasRoom(y.sched) && id < |y.sched.threads|
    requires y.sched.threads[id].state != Exited
    ensures SameMail(y.sched, SpawnStep(y, t).sched, id)
  {
    NewThreadOk(t);
    SpawnInv(y.sched, t);
    JoinsMail(y.sched, Spawn(y.sched, t), t, id);
  }

  lemma SpawnOwnedMail(y: Sys, t: Thread, pid: nat, id: nat)
    requires Inv(y.sched) && NewThread(t) && t.proc == None && HasRoom(y.sched)
    requires id < |y.sched.threads| && y.sched.threads[id].state != Exited
    ensures SameMail(y.sched, SpawnOwnedStep(y, t, pid).sched, id)
  {
    NewThreadOk(t);
    SpawnInv(y.sched, t);
    SpawnOwnedInv(y.sched, t, pid);
    JoinsMail(y.sched, SpawnOwned(y.sched, t, pid), t.(proc := Some(pid)), id);
  }

  lemma DonateMail(y: Sys, h: nat, id: nat)
    requires SysInv(y) && CanDonate(y, h) && id < |y.sched.threads|
    ensures SameMail(y.sched, DonateStep(y, h).sched, id)
  {
    NoDonationYet(y, y.sched.current[h]);
  }

  /** Once a thread's call is over its mail stays until the thread takes it: nothing else is delivered to it. */
  lemma MailWaits(y: Sys, op: Op, gp: nat, id: nat)
    requires SysInv(y) && Enabled(y, op) && id < |y.sched.threads| && y.sched.threads[id].state != Exited
    requires !InIpc(y.phase, id) && !(op.OnHart? && op.op.Taking? && y.sched.current[op.op.h] == id)
    ensures SameMail(y.sched, Step(y, op, gp).0.sched, id)
  {
    match op
    case OnHart(hop) => HartMail(y, hop, gp, id);
    case Waking(k) => WakeMail(y.sched, k, id);
    case Moving(k, hart) => MoveMail(y.sched, k, hart, id);
    case Spawning(t) => SpawnMail(y, t, id);
    case SpawningOwned(t, pid) => SpawnOwnedMail(y, t, pid, id);
    case _ => CallMail(y, op, gp, id);
  }

  lemma CallMail(y: Sys, op: Op, gp: nat, id: nat)
    requires SysInv(y) && Enabled(y, op) && id < |y.sched.threads| && !InIpc(y.phase, id)
    requires IsIpc(op)
    ensures SameMail(y.sched, Step(y, op, gp).0.sched, id)
  {
    match op
    case Sleeping(h, frame, regs) => UserBlockMail(y, h, frame, regs, id);
    case KernelSleeping(h, regs) => KernelBlockMail(y, h, regs, id);
    case Donating(h) => DonateMail(y, h, id);
    case Delivering(i) => LateMail(y, i, id);
    case _ =>
  }

  ghost predicate Legal(y: Sys, ops: seq<Op>, gp: nat)
    requires SysInv(y)
    decreases |ops|
  {
    ops != [] ==> Enabled(y, ops[0]) && (StepKeeps(y, ops[0], gp); Legal(Step(y, ops[0], gp).0, ops[1..], gp))
  }

  function Run(y: Sys, ops: seq<Op>, gp: nat): (r: Sys)
    requires SysInv(y) && Legal(y, ops, gp)
    decreases |ops|
  {
    if ops == [] then y
    else
      StepKeeps(y, ops[0], gp);
      Run(Step(y, ops[0], gp).0, ops[1..], gp)
  }

  /**
    In every state that any interleaving reaches: each unfinished IPC operation has exactly one of a
    queue entry, a result on its way and a kept result; every queue holds exactly the ready threads of
    its hart and level; donations belong to unfinished operations; and no send waits beside a receive that names it.
  */
  lemma {:induction false} RunKeeps(y: Sys, ops: seq<Op>, gp: nat)
    requires SysInv(y) && Legal(y, ops, gp)
    ensures SysInv(Run(y, ops, gp))
    decreases |ops|
  {
    if ops != [] {
      StepKeeps(y, ops[0], gp);
      RunKeeps(Step(y, ops[0], gp).0, ops[1..], gp);
    }
  }

  /** The system after `init`. */
  function Boot(frame: seq<nat>, ctx: Context): (y: Sys)
    requires |frame| == FRAME_WORDS && |ctx.s| == 12
  {
    Sys(BootSched(frame, ctx), Ipc([], []), [], seq(MAX_HARTS, h => Outside))
  }

  lemma BootInv(frame: seq<nat>, ctx: Context)
    requires |frame| == FRAME_WORDS && |ctx.s| == 12
    ensures SysInv(Boot(frame, ctx))
  {
    BootSchedInv(frame, ctx);
  }

  /**
    From boot on, whatever the harts do: a thread is queued exactly while ready, on its hart and at its effective
    priority; a thread that sleeps in an IPC call, as every blocked user thread does, is awaited by exactly one
    entry or result; and without IPC in flight there is no donation.
  */
  lemma ReachableSafe(frame: seq<nat>, ctx: Context, ops: seq<Op>, gp: nat, id: nat, h: nat, l: nat)
    requires |frame| == FRAME_WORDS && |ctx.s| == 12 && h < MAX_HARTS && l < PRIO_LEVELS
    requires SysInv(Boot(frame, ctx)) && Legal(Boot(frame, ctx), ops, gp)
    ensures var y := Run(Boot(frame, ctx), ops, gp);
            && SysInv(y) && Shaped(y.sched.ready)
            && (id in y.sched.ready[h][l] <==>
                id < |y.sched.threads| && y.sched.threads[id].state == Ready && y.sched.threads[id].hart == h
                && Eff(y.sched.threads[id], y.sched.donations) == l)
            && (id < |y.sched.threads| && y.sched.threads[id].state == Blocked
                && (y.sched.threads[id].user || InIpc(y.phase, id)) ==>
                Count(SendTids(y.ipc.sends), id) + Count(RecvTids(y.ipc.recvs), id)
                  + Count(TransitTids(y.transit), id) == 1)
            && ((forall x: nat :: !InIpc(y.phase, x)) ==> y.sched.donations == [])
  {
    var y := Run(Boot(frame, ctx), ops, gp);
    RunKeeps(Boot(frame, ctx), ops, gp);
    QueuedExactly(y.sched, id, h, l);
    var asleep := id < |y.sched.threads| && y.sched.threads[id].state == Blocked;
    if asleep && (y.sched.threads[id].user || InIpc(y.phase, id)) { BlockedIsAwaited(y, id); }
    if forall x: nat :: !InIpc(y.phase, x) { NothingInFlight(y); }
  }

  // ----- A wake-up left over -----

  lemma StepOne(y: Sys, op: Op, rest: seq<Op>, gp: nat)
    requires SysInv(y) && Enabled(y, op) && SysInv(Step(y, op, gp).0) && Legal(Step(y, op, gp).0, rest, gp)
    ensures Legal(y, [op] + rest, gp) && Run(y, [op] + rest, gp) == Run(Step(y, op, gp).0, rest, gp)
  {
    assert ([op] + rest)[0] == op && ([op] + rest)[1..] == rest;
  }

  /** A kernel thread is woken while it runs, and then listens, with nobody sending to it. */
  function Listening(y: Sys, h: nat): (r: seq<Op>)
    requires h < |y.sched.current|
  {
    [Waking(y.sched.current[h])] + ([Receiving(h, ACCEPT_ANY)] + [])
  }

  predicate NobodySends(y: Sys, h: nat) {
    && CanCall(y, h) && !y.sched.threads[y.sched.current[h]].user
    && SendPos(y.ipc.sends, ACCEPT_ANY, y.sched.threads[y.sched.current[h]].proc.value) == |y.ipc.sends|
  }

  /** The state before that thread blocks: woken, and queued as a receiver. */
  ghost predicate WokenCaller(y: Sys, z: Sys, h: nat) {
    && h < |y.sched.current| && y.sched.current[h] < |y.sched.threads| == |z.sched.threads| == |y.phase|
    && z.sched.current == y.sched.current
    && var tid := y.sched.current[h];
    && z.sched.threads[tid] == y.sched.threads[tid].(woken := true)
    && z.phase == y.phase[tid := Registered(None)] && tid in RecvTids(z.ipc.recvs)
  }

  lemma ListeningRun(y: Sys, h: nat, gp: nat)
    requires SysInv(y) && h < MAX_HARTS && NobodySends(y, h)
    ensures Legal(y, Listening(y, h), gp)
    ensures var z := Run(y, Listening(y, h), gp); SysInv(z) && WokenCaller(y, z, h)
  {
    var tid := y.sched.current[h];
    assert Tokens(y, tid) == if InIpc(y.phase, tid) then 1 else 0;
    WakingIff(y, tid);
    var y1 := Step(y, Waking(tid), gp).0;
    RecvStepInv(y1, h, ACCEPT_ANY);
    StepOne(y1, Receiving(h, ACCEPT_ANY), [], gp);
    StepOne(y, Waking(tid), [Receiving(h, ACCEPT_ANY)] + [], gp);
    Registers(y1, h);
  }

  lemma Registers(y: Sys, h: nat)
    requires NobodySends(y, h)
    ensures var r, tid := RecvStep(y, h, ACCEPT_ANY), y.sched.current[h];
            && r.sched == y.sched && r.phase == y.phase[tid := Registered(None)] && tid in RecvTids(r.ipc.recvs)
  {
    var tid := y.sched.current[h];
    RecvTidsJoin(y.ipc.recvs, PendingRecv(tid, y.sched.threads[tid].proc.value, ACCEPT_ANY));
  }

  /**
    Whatever the system does, a kernel thread that was woken while it ran and then finds nobody to receive
    from does not block: `block_current` returns at once, the thread is in no call any more and has got
    no message, and its entry is still queued.
  */
  lemma StaleWake(y: Sys, h: nat, regs: Context, gp: nat)
    requires SysInv(y) && h < MAX_HARTS && NobodySends(y, h) && |regs.s| == 12
    ensures Legal(y, Listening(y, h), gp)
    ensures var z, tid := Run(y, Listening(y, h), gp), y.sched.current[h];
            && SysInv(z) && KernelAtBlock(z, h, regs) && z.sched.current[h] == tid
            && var (r, o) := KernelBlock(z, h, regs);
               && o == Stay && r.phase[tid] == Outside && tid in RecvTids(r.ipc.recvs)
               && r.sched.threads[tid].ipcMsg == y.sched.threads[tid].ipcMsg && !SysInv(r)
  {
    ListeningRun(y, h, gp);
    WokenBlocks(y, Run(y, Listening(y, h), gp), h, regs);
  }

  lemma WokenBlocks(y: Sys, z: Sys, h: nat, regs: Context)
    requires SysInv(y) && h < MAX_HARTS && NobodySends(y, h) && |regs.s| == 12 && SysInv(z) && WokenCaller(y, z, h)
    ensures var tid := y.sched.current[h];
            && KernelAtBlock(z, h, regs) && z.sched.current[h] == tid
            && var (r, o) := KernelBlock(z, h, regs);
               && o == Stay && r.phase[tid] == Outside && tid in RecvTids(r.ipc.recvs)
               && r.sched.threads[tid].ipcMsg == y.sched.threads[tid].ipcMsg && !SysInv(r)
  {
    var tid := y.sched.current[h];
    assert Tokens(y, tid) == if InIpc(y.phase, tid) then 1 else 0;
    KernelBlockIff(z, h, regs, 0);
    BlockCurrentInv(z.sched, h, regs, 0);
  }

  /** The idle thread of hart `h` gives way to the only thread that is queued there. */
  lemma IdleStarts(s: Sched, h: nat, id: nat, regs: Context)
    requires Inv(s) && h < MAX_HARTS && s.current[h] == s.idle[h] && |regs.s| == 12 && id < |s.threads|
    requires s.threads[id].state == Ready && s.threads[id].hart == h && s.threads[id].ctxValid
    requires forall k :: 0 <= k < |s.threads| && k != id && s.threads[k].hart == h ==> s.threads[k].state != Ready
    ensures var (r, o) := IdleRound(s, h, regs); r.current[h] == id && o.Switched? && o.next == id
  {
    TicksInv(s, -1, h, 0);
    var s0 := s.(ticks := s.ticks[h := 0]);
    var m, k := PickShape(s0, h, true, 0);
    QueuedAreThreads(s0);
    assert Pickable(s0.threads[id], true) && Eff(s0.threads[id], s0.donations) < PRIO_LEVELS;
    assert m < PRIO_LEVELS;
    assert PlaceOf(s0.threads[s0.ready[h][m][k]], s0.donations) == At(h, m);
  }

  /** A kernel thread of process `pid`, for hart 0. */
  function Caller(entry: nat, sp: nat, gp: nat): (t: Thread) {
    KernelThread(entry, sp, gp, 0, 0)
  }

  function Starting(entry: nat, sp: nat, gp: nat, pid: nat, regs: Context): (r: seq<Op>) {
    [SpawningOwned(Caller(entry, sp, gp), pid)] + ([OnHart(Idling(0, regs))] + [])
  }

  /** From boot, two steps lead to a state in which a kernel thread can make the call of `StaleWake`. */
  lemma CallerReachable(frame: seq<nat>, ctx: Context, entry: nat, sp: nat, gp: nat, pid: nat, regs: Context)
    requires |frame| == FRAME_WORDS && |ctx.s| == 12 == |regs.s| && SysInv(Boot(frame, ctx))
    ensures Legal(Boot(frame, ctx), Starting(entry, sp, gp, pid, regs), gp)
    ensures var y := Run(Boot(frame, ctx), Starting(entry, sp, gp, pid, regs), gp);
            && SysInv(y) && CanCall(y, 0) && !y.sched.threads[y.sched.current[0]].user && y.ipc == Ipc([], [])
            && y.sched.threads[y.sched.current[0]].proc == Some(pid)
  {
    var y0, t := Boot(frame, ctx), Caller(entry, sp, gp);
    var spawn, idle := SpawningOwned(t, pid), OnHart(Idling(0, regs));
    BootSpawns(frame, ctx, t, pid);
    var y1 := SpawnOwnedStep(y0, t, pid);
    IdleCalls(y1, MAX_HARTS, pid, regs, gp);
    StepOne(y1, idle, [], gp);
    StepOne(y0, spawn, [idle] + [], gp);
  }

  lemma BootSpawns(frame: seq<nat>, ctx: Context, t: Thread, pid: nat)
    requires |frame| == FRAME_WORDS && |ctx.s| == 12 && SysInv(Boot(frame, ctx))
    requires NewThread(t) && t.proc == None && t.hart == 0 && t.ctxValid && !t.user
    ensures HasRoom(Boot(frame, ctx).sched)
    ensures var r := SpawnOwnedStep(Boot(frame, ctx), t, pid);
            && SysInv(r) && OneQueued(r.sched, MAX_HARTS, pid) && r.ipc == Ipc([], [])
            && forall k :: 0 <= k < |r.phase| ==> r.phase[k] == Outside
  {
    var y0 := Boot(frame, ctx);
    SpawningOwnedKeeps(y0, t, pid);
    NewThreadOk(t);
    SpawnOwnedInv(y0.sched, t, pid);
    BootJoined(frame, ctx, SpawnOwned(y0.sched, t, pid), t.(proc := Some(pid)), pid);
  }

  /** Hart 0 runs its idle thread, and the only queued thread, `id`, can be started there. */
  ghost predicate OneQueued(s: Sched, id: nat, pid: nat) {
    && |s.current| == MAX_HARTS == |s.idle| && s.current[0] == s.idle[0] == 0 && id < |s.threads|
    && s.threads[id].state == Ready && s.threads[id].hart == 0 && s.threads[id].ctxValid
    && s.threads[id].proc == Some(pid) && !s.threads[id].user
    && forall k :: 0 <= k < |s.threads| && k != id ==> s.threads[k].state == Running
  }

  lemma BootJoined(frame: seq<nat>, ctx: Context, s: Sched, t: Thread, pid: nat)
    requires Joins(BootSched(frame, ctx), s, t) && t.state == Ready && t.hart == 0 && t.ctxValid
    requires t.proc == Some(pid) && !t.user
    ensures OneQueued(s, MAX_HARTS, pid)
  {
    var b := BootSched(frame, ctx);
    assert s.threads == b.threads + [t] && s.threads[MAX_HARTS] == t;
    assert forall k :: 0 <= k < MAX_HARTS ==> s.threads[k] == b.threads[k];
  }

  lemma IdleCalls(y: Sys, id: nat, pid: nat, regs: Context, gp: nat)
    requires SysInv(y) && OneQueued(y.sched, id, pid) && |regs.s| == 12
    requires forall k :: 0 <= k < |y.phase| ==> y.phase[k] == Outside
    ensures Enabled(y, OnHart(Idling(0, regs)))
    ensures var r := Step(y, OnHart(Idling(0, regs)), gp).0;
            && SysInv(r) && CanCall(r, 0) && !r.sched.threads[r.sched.current[0]].user && r.ipc == y.ipc
            && r.sched.threads[r.sched.current[0]].proc == Some(pid)
  {
    StepKeeps(y, OnHart(Idling(0, regs)), gp);
    IdleStarts(y.sched, 0, id, regs);
    IdleRoundInv(y.sched, 0, regs, gp);
  }
}
