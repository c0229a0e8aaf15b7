/** States, reached from boot, in which a purge, a second donation or a late link of a chain leaves a thread behind. */
module IpcCases {
  import opened Common
  import opened ReadyQueues
  import opened SchedModel
  import opened SchedDonations
  import opened SchedSteps
  import opened IpcModel
  import opened IpcSystem
  import opened IpcRuns
  import opened IpcChains

  // ----- A queued send is purged -----

  /** A send that finds no receiver is queued, and a purge of its process removes it without a word to its thread. */
  lemma SenderForgotten(y: Sys, h: nat, dst: nat, msg: seq<nat>)
    requires SysInv(y) && CanCall(y, h) && |msg| == MSG_WORDS && y.ipc == Ipc([], [])
    requires y.sched.threads[y.sched.current[h]].proc != Some(ACCEPT_ANY)
    ensures var z, tid := SendStep(y, h, dst, msg), y.sched.current[h];
            var r := PurgeStep(z, y.sched.threads[tid].proc.value);
            SysInv(z) && InIpc(r.phase, tid) && Tokens(r, tid) == 0 && !SysInv(r)
  {
    var tid := y.sched.current[h];
    var pid := y.sched.threads[tid].proc.value;
    var z := SendStep(y, h, dst, msg);
    SendStepInv(y, h, dst, msg);
    assert z.ipc.sends == [PendingSend(tid, pid, dst, msg)];
    assert OwnSends(z.ipc.sends, pid) == [tid] + OwnSends(z.ipc.sends[1..], pid);
    assert z.ipc.sends[1..] == [];
    PurgeStepIff(z, pid);
    PurgeTokens(z, pid, tid);
    assert Tokens(z, tid) == if InIpc(z.phase, tid) then 1 else 0;
  }

  /** From boot: a thread of process `pid` is started, sends, and its process is purged. */
  lemma PurgedSender(frame: seq<nat>, ctx: Context, entry: nat, sp: nat, gp: nat, pid: nat, regs: Context, dst: nat,
          msg: seq<nat>)
    requires |frame| == FRAME_WORDS && |ctx.s| == 12 == |regs.s| && SysInv(Boot(frame, ctx))
    requires |msg| == MSG_WORDS && pid != ACCEPT_ANY
    ensures Legal(Boot(frame, ctx), Starting(entry, sp, gp, pid, regs), gp)
    ensures var y := Run(Boot(frame, ctx), Starting(entry, sp, gp, pid, regs), gp);
            && SysInv(y) && CanCall(y, 0)
            && var z := SendStep(y, 0, dst, msg); SysInv(z) && !SysInv(PurgeStep(z, pid))
  {
    CallerReachable(frame, ctx, entry, sp, gp, pid, regs);
    SenderForgotten(Run(Boot(frame, ctx), Starting(entry, sp, gp, pid, regs), gp), 0, dst, msg);
  }

  // ----- A donation is replaced -----

  /** Boot, a thread of priority 10 in process `p`, and one of priority 0 that will donate. */
  function TwoQueued(frame: seq<nat>, ctx: Context, entry: nat, sp: nat, gp: nat, p: nat): (s: Sched)
    requires |frame| == FRAME_WORDS && |ctx.s| == 12
  {
    BootSchedInv(frame, ctx);
    var t, u := KernelThread(entry, sp, gp, 10, 0), KernelThread(entry, sp, gp, 0, 0);
    SpawnOwnedInv(BootSched(frame, ctx), t, p);
    Spawn(SpawnOwned(BootSched(frame, ctx), t, p), u)
  }

  /** There the second donation leaves the thread of `p` in a queue that is not its own. */
  lemma DonationReplaced(frame: seq<nat>, ctx: Context, entry: nat, sp: nat, gp: nat, p: nat, q: nat)
    requires |frame| == FRAME_WORDS && |ctx.s| == 12 && p != q
    ensures var s, donor := TwoQueued(frame, ctx, entry, sp, gp, p), MAX_HARTS + 1;
            && Inv(s) && donor < |s.threads| && Inv(Register(s, donor, p))
            && donor < |Register(s, donor, p).threads| && !Inv(Register(Register(s, donor, p), donor, q))
  {
    BootSchedInv(frame, ctx);
    var t, u := KernelThread(entry, sp, gp, 10, 0), KernelThread(entry, sp, gp, 0, 0);
    var b := BootSched(frame, ctx);
    SpawnOwnedInv(b, t, p);
    var s1 := SpawnOwned(b, t, p);
    SpawnInv(s1, u);
    SpawnOneMore(b, s1, Spawn(s1, u), t.(proc := Some(p)), u, p, q);
    SecondDonation(Spawn(s1, u), MAX_HARTS + 1, MAX_HARTS, p, q);
  }

  lemma SpawnOneMore(b: Sched, s1: Sched, s: Sched, t: Thread, u: Thread, p: nat, q: nat)
    requires |b.threads| == MAX_HARTS && b.freeSlots == [] && b.donations == [] && Joins(b, s1, t)
    requires s1.freeSlots == [] && Joins(s1, s, u)
    requires t.state == Ready && t.proc == Some(p) && p != q && u.proc == None && u.prio < t.prio
    ensures MayLift(s, MAX_HARTS + 1, MAX_HARTS, p, q)
  {
    assert s1.threads == b.threads + [t];
  }

  // ----- A chain in the wrong order -----

  /** Boot, a thread of process `p` and one of process `q`, both of the lowest priority, and a most urgent one. */
  function ThreeQueued(frame: seq<nat>, ctx: Context, entry: nat, sp: nat, gp: nat, p: nat, q: nat): (s: Sched)
    requires |frame| == FRAME_WORDS && |ctx.s| == 12
  {
    BootSchedInv(frame, ctx);
    var t, u := KernelThread(entry, sp, gp, PRIO_LEVELS, 0), KernelThread(entry, sp, gp, 0, 0);
    SpawnOwnedInv(BootSched(frame, ctx), t, p);
    var s1 := SpawnOwned(BootSched(frame, ctx), t, p);
    SpawnOwnedInv(s1, t, q);
    Spawn(SpawnOwned(s1, t, q), u)
  }

  lemma ThreeJoin(b: Sched, s1: Sched, s2: Sched, s: Sched, t: Thread, v: Thread, u: Thread, p: nat, q: nat)
    requires |b.threads| == MAX_HARTS && b.freeSlots == [] && b.donations == [] && Joins(b, s1, t)
    requires s1.freeSlots == [] && Joins(s1, s2, v) && s2.freeSlots == [] && Joins(s2, s, u)
    requires t.proc == Some(p) && v.proc == Some(q) && p != q && v.state == Ready && u.proc == None
    requires u.prio < t.prio && u.prio < v.prio
    ensures ThreeThreads(s, MAX_HARTS + 2, MAX_HARTS, MAX_HARTS + 1, p, q)
  {
    assert s1.threads == b.threads + [t];
    assert s2.threads == b.threads + [t] + [v];
  }

  /** There the thread of `q` is left behind when the thread of `p` donates before the urgent one donates to `p`. */
  lemma ChainBroken(frame: seq<nat>, ctx: Context, entry: nat, sp: nat, gp: nat, p: nat, q: nat)
    requires |frame| == FRAME_WORDS && |ctx.s| == 12 && p != q
    ensures var s, a, b, c := ThreeQueued(frame, ctx, entry, sp, gp, p, q), MAX_HARTS + 2, MAX_HARTS, MAX_HARTS + 1;
            && Inv(s) && a < |s.threads| && b < |s.threads| && Inv(Register(s, b, q)) && a < |Register(s, b, q).threads|
            && exists l: nat :: l > s.threads[a].prio && StandsAt(Register(Register(s, b, q), a, p), c, l)
  {
    var b := BootSched(frame, ctx);
    var t, u := KernelThread(entry, sp, gp, PRIO_LEVELS, 0), KernelThread(entry, sp, gp, 0, 0);
    BootSchedInv(frame, ctx);
    SpawnOwnedInv(b, t, p);
    var s1 := SpawnOwned(b, t, p);
    SpawnOwnedInv(s1, t, q);
    var s2 := SpawnOwned(s1, t, q);
    SpawnInv(s2, u);
    ThreeJoin(b, s1, s2, Spawn(s2, u), t.(proc := Some(p)), t.(proc := Some(q)), u, p, q);
    LateLink(Spawn(s2, u), MAX_HARTS + 2, MAX_HARTS, MAX_HARTS + 1, p, q);
  }
}
