/** Every interleaving of the harts is a course of events for each of them: its ticks, and steps elsewhere. */
module IpcRounds {
  import opened Common
  import opened ReadyQueues
  import opened SchedModel
  import opened SchedDonations
  import opened SchedSteps
  import opened SchedWake
  import opened SchedTick
  import opened SchedRounds
  import opened IpcSystem
  import opened IpcRuns

  /** The step is a tick of hart `h`. */
  predicate TickOf(op: Op, h: nat) {
    op.OnHart? && op.op.Ticking? && op.op.h == h
  }

  /** Hart `h` may give up its thread by this step. */
  predicate GivesUp(op: Op, h: nat) {
    match op
    case OnHart(Yielding(g, _)) => g == h
    case OnHart(Blocking(g, _)) => g == h
    case OnHart(Exiting(g, _)) => g == h
    case OnHart(Idling(g, _)) => g == h
    case Sleeping(g, _, _) => g == h
    case KernelSleeping(g, _) => g == h
    case _ => false
  }

  /** At most hart `g` has another thread or slice. */
  predicate OnlyHart(s: Sched, r: Sched, g: nat) {
    && g < |s.ticks| == |r.ticks| && r.ticks == s.ticks[g := r.ticks[g]]
    && g < |s.current| == |r.current| && r.current == s.current[g := r.current[g]]
  }

  lemma OnlyElsewhere(s: Sched, r: Sched, g: nat, h: nat)
    requires OnlyHart(s, r, g) && h != g
    ensures Elsewhere(s, r, h)
  {
  }

  lemma SwitchOnly(s: Sched, r: Sched, g: nat)
    requires g < MAX_HARTS && InvBut(s, g) && s.threads[s.current[g]].state != Running && r == SwitchAway(s, g).0
    ensures OnlyHart(s, r, g)
  {
  }

  lemma RevokeOnly(s: Sched, donor: nat)
    requires Inv(s)
    ensures Revoke(s, donor).ticks == s.ticks && Revoke(s, donor).current == s.current
  {
  }

  lemma YieldOnly(s: Sched, g: nat, regs: Context)
    requires Inv(s) && g < MAX_HARTS && !s.threads[s.current[g]].user && |regs.s| == 12
    ensures OnlyHart(s, Yield(s, g, regs).0, g)
  {
    var cur := s.current[g];
    var t := s.threads[cur].(ctx := regs, frameValid := false, ctxValid := true, state := Ready);
    QueueInv(s, -1, g, cur, t, FromCtx(regs));
    SwitchOnly(Queue(s, cur, t, FromCtx(regs)), Yield(s, g, regs).0, g);
  }

  lemma BlockOnly(s: Sched, g: nat, regs: Context)
    requires Inv(s) && g < MAX_HARTS && !s.threads[s.current[g]].user && s.current[g] != s.idle[g] && |regs.s| == 12
    ensures OnlyHart(s, BlockCurrent(s, g, regs).0, g)
  {
    var cur := s.current[g];
    var t := s.threads[cur];
    if t.ipcWake != NoWake {
      SetInv(s, -1, -1, cur, t.(ipcWake := NoWake), s.latest[cur]);
      RevokeOnly(SetTo(s, cur, t.(ipcWake := NoWake), s.latest[cur]), cur);
    } else if !t.woken {
      SetInv(s, -1, g, cur, Parked(t, regs), FromCtx(regs));
      SwitchOnly(SetTo(s, cur, Parked(t, regs), FromCtx(regs)), BlockCurrent(s, g, regs).0, g);
    }
  }

  lemma ExitOnly(s: Sched, g: nat, regs: Context)
    requires Inv(s) && g < MAX_HARTS && s.current[g] != s.idle[g] && |regs.s| == 12
    ensures OnlyHart(s, Exit(s, g, regs).0, g)
  {
    ExitLeaves(s, g, regs);
    SwitchOnly(Left(s, g, regs), Exit(s, g, regs).0, g);
  }

  lemma TrapOnly(s: Sched, g: nat, frame: seq<nat>, regs: Context)
    requires Inv(s) && CanBlock(s, g, frame, regs)
    ensures OnlyHart(s, BlockUser(s, g, frame, regs).0, g)
  {
    var cur := s.current[g];
    var t := s.threads[cur];
    if t.ipcWake != NoWake {
      SetInv(s, -1, -1, cur, t.(ipcWake := NoWake), s.latest[cur]);
      RevokeOnly(SetTo(s, cur, t.(ipcWake := NoWake), s.latest[cur]), cur);
    } else {
      SleepInv(s, g, frame, regs);
      SwitchOnly(SetTo(s, cur, Asleep(t, frame, regs), FromFrame(frame)), BlockUser(s, g, frame, regs).0, g);
    }
  }

  lemma RotateOnly(s: Sched, g: nat, frame: seq<nat>, gp: nat)
    requires Inv(s) && g < MAX_HARTS && |frame| == FRAME_WORDS
    ensures OnlyHart(s, Rotate(s, g, frame, gp).0, g)
  {
    PreemptInv(s, g, frame);
    var p := Preempt(s, g, frame);
    assert p.ticks == s.ticks[g := 0] && p.current == s.current;
  }

  lemma TickOnly(s: Sched, r: Sched, g: nat, frame: seq<nat>, gp: nat)
    requires Inv(s) && g < MAX_HARTS && |frame| == FRAME_WORDS && r == Tick(s, g, frame, gp).0
    ensures OnlyHart(s, r, g)
  {
    if r == Rotate(s, g, frame, gp).0 { RotateOnly(s, g, frame, gp); }
  }

  lemma DeliverOnly(s: Sched, tid: nat, d: Delivery)
    requires Inv(s) && CanServe(s, tid, d)
    ensures Deliver(s, tid, d).ticks == s.ticks && Deliver(s, tid, d).current == s.current
  {
    var t := s.threads[tid];
    if t.state == Blocked {
      ServedInv(s, tid, d);
      RevokeOnly(Queue(s, tid, Served(t, d), ServedFrom(t, d, s.latest[tid])), tid);
    }
  }

  lemma IdleOnly(s: Sched, g: nat, regs: Context)
    requires Inv(s) && g < MAX_HARTS && s.current[g] == s.idle[g] && |regs.s| == 12
    ensures OnlyHart(s, IdleRound(s, g, regs).0, g)
  {
  }

  /** What a step of a hart does to harts. */
  lemma HartOnly(y: Sys, op: HartOp, gp: nat)
    requires SysInv(y) && HartEnabled(y, op)
    ensures var r := HartStep(y, op, gp).0;
            && OnlyHart(y.sched, r, op.h)
            && (op.Resuming? || op.Taking? ==> r.ticks == y.sched.ticks && r.current == y.sched.current)
  {
    match op
    case Yielding(g, regs) => YieldOnly(y.sched, g, regs);
    case Blocking(g, regs) => BlockOnly(y.sched, g, regs);
    case Resuming(_) =>
    case Exiting(g, regs) => ExitOnly(y.sched, g, regs);
    case Idling(g, regs) => IdleOnly(y.sched, g, regs);
    case Ticking(g, frame) => TickOnly(y.sched, Tick(y.sched, g, frame, gp).0, g, frame, gp);
    case Taking(_) =>
  }

  lemma HartElsewhere(y: Sys, op: HartOp, gp: nat, h: nat)
    requires SysInv(y) && HartEnabled(y, op) && !GivesUp(OnHart(op), h) && !TickOf(OnHart(op), h)
    ensures Elsewhere(y.sched, HartStep(y, op, gp).0, h)
  {
    HartOnly(y, op, gp);
    if op.h != h { OnlyElsewhere(y.sched, HartStep(y, op, gp).0, op.h, h); }
  }

  lemma SleepElsewhere(y: Sys, g: nat, frame: seq<nat>, regs: Context, h: nat)
    requires SysInv(y) && UserAtBlock(y, g, frame, regs) && g != h
    ensures Elsewhere(y.sched, BlockStep(y, g, frame, regs).0.sched, h)
  {
    var tid := y.sched.current[g];
    assert PhaseFits(y.sched.threads[tid], y.phase[tid], true);
    TrapOnly(y.sched, g, frame, regs);
  }

  lemma ParkElsewhere(y: Sys, g: nat, regs: Context, h: nat)
    requires SysInv(y) && KernelAtBlock(y, g, regs) && g != h
    ensures Elsewhere(y.sched, KernelBlock(y, g, regs).0.sched, h)
  {
    var tid := y.sched.current[g];
    assert PhaseFits(y.sched.threads[tid], y.phase[tid], true);
    BlockOnly(y.sched, g, regs);
  }

  /** The steps of IPC calls. */
  lemma CallElsewhere(y: Sys, op: Op, h: nat)
    requires SysInv(y) && Enabled(y, op) && IsIpc(op) && !GivesUp(op, h)
    ensures Elsewhere(y.sched, IpcStep(y, op).0.sched, h)
  {
    match op
    case Sleeping(g, frame, regs) => SleepElsewhere(y, g, frame, regs, h);
    case KernelSleeping(g, regs) => ParkElsewhere(y, g, regs, h);
    case Delivering(i) => DeliverElsewhere(y, i, h);
    case Donating(g) => DonateElsewhere(y, g, h);
    case _ =>
  }

  lemma DeliverElsewhere(y: Sys, i: nat, h: nat)
    requires SysInv(y) && i < |y.transit|
    ensures Elsewhere(y.sched, DeliverStep(y, i).sched, h)
  {
    Addressee(y, i);
    DeliverOnly(y.sched, y.transit[i].tid, y.transit[i].d);
  }

  lemma DonateElsewhere(y: Sys, g: nat, h: nat)
    requires SysInv(y) && CanDonate(y, g)
    ensures Elsewhere(y.sched, DonateStep(y, g).sched, h)
  {
    NoDonationYet(y, y.sched.current[g]);
  }

  lemma SpawnElsewhere(y: Sys, t: Thread, h: nat)
    requires Inv(y.sched) && NewThread(t) && HasRoom(y.sched)
    ensures Elsewhere(y.sched, SpawnStep(y, t).sched, h)
  {
    NewThreadOk(t);
  }

  lemma SpawnOwnedElsewhere(y: Sys, t: Thread, pid: nat, h: nat)
    requires Inv(y.sched) && NewThread(t) && t.proc == None && HasRoom(y.sched)
    ensures Elsewhere(y.sched, SpawnOwnedStep(y, t, pid).sched, h)
  {
    NewThreadOk(t);
    SpawnOwnedInv(y.sched, t, pid);
    SpawnOwnedOnly(y.sched, SpawnOwned(y.sched, t, pid), t, pid);
  }

  lemma SpawnOwnedOnly(s: Sched, r: Sched, t: Thread, pid: nat)
    requires Inv(s) && HasRoom(s) && ThreadOk(t) && t.state == Ready && Fresh(t, Start(t.ctx, t.frame))
    requires t.proc == None
    requires r == SpawnOwned(s, t, pid)
    ensures r.ticks == s.ticks && r.current == s.current
  {
  }

  /** A step by which hart `h` does not give up its thread, and which is not its tick, leaves it alone. */
  lemma StepElsewhere(y: Sys, op: Op, gp: nat, h: nat)
    requires SysInv(y) && Enabled(y, op) && !GivesUp(op, h) && !TickOf(op, h)
    ensures Elsewhere(y.sched, Step(y, op, gp).0.sched, h)
  {
    match op
    case OnHart(hop) => HartElsewhere(y, hop, gp, h);
    case Waking(_) =>
    case Moving(_, _) =>
    case Spawning(t) => SpawnElsewhere(y, t, h);
    case SpawningOwned(t, pid) => SpawnOwnedElsewhere(y, t, pid, h);
    case _ => CallElsewhere(y, op, h);
  }

  function EventOf(op: Op, h: nat): (e: Event) {
    if TickOf(op, h) then Tock(op.op.frame) else Other
  }

  ghost predicate NeverGivesUp(ops: seq<Op>, h: nat) {
    forall i :: 0 <= i < |ops| ==> !GivesUp(ops[i], h)
  }

  lemma StepHappens(y: Sys, op: Op, gp: nat, h: nat)
    requires SysInv(y) && Enabled(y, op) && !GivesUp(op, h) && h < MAX_HARTS
    ensures Happens(y.sched, EventOf(op, h), Step(y, op, gp).0.sched, h, gp)
  {
    StepKeeps(y, op, gp);
    if !TickOf(op, h) { StepElsewhere(y, op, gp, h); }
  }

  /** A run of the whole system, seen from a hart that keeps its thread until a tick takes it. */
  lemma {:induction false} RunIsCourse(y: Sys, ops: seq<Op>, gp: nat, h: nat)
    returns (states: seq<Sched>, events: seq<Event>)
    requires SysInv(y) && Legal(y, ops, gp) && h < MAX_HARTS && NeverGivesUp(ops, h)
    ensures Course(states, events, h, gp) && |events| == |ops|
    ensures states[0] == y.sched && states[|ops|] == Run(y, ops, gp).sched
    ensures forall i :: 0 <= i < |ops| ==> events[i] == EventOf(ops[i], h)
    decreases |ops|
  {
    if ops == [] {
      states, events := [y.sched], [];
    } else {
      var next := FirstHappens(y, ops, gp, h);
      var rest, later := RunIsCourse(next, ops[1..], gp, h);
      states, events := [y.sched] + rest, [EventOf(ops[0], h)] + later;
      CourseCons(y.sched, EventOf(ops[0], h), rest, later, h, gp);
    }
  }

  lemma FirstHappens(y: Sys, ops: seq<Op>, gp: nat, h: nat) returns (r: Sys)
    requires SysInv(y) && Legal(y, ops, gp) && h < MAX_HARTS && NeverGivesUp(ops, h) && ops != []
    ensures SysInv(r) && Legal(r, ops[1..], gp) && Run(r, ops[1..], gp) == Run(y, ops, gp)
    ensures Happens(y.sched, EventOf(ops[0], h), r.sched, h, gp)
  {
    StepKeeps(y, ops[0], gp);
    StepHappens(y, ops[0], gp, h);
    r := Step(y, ops[0], gp).0;
  }

  lemma CourseCons(s: Sched, e: Event, states: seq<Sched>, events: seq<Event>, h: nat, gp: nat)
    requires Course(states, events, h, gp) && Happens(s, e, states[0], h, gp)
    ensures Course([s] + states, [e] + events, h, gp)
  {
    var all, es := [s] + states, [e] + events;
    forall i | 0 <= i < |es| ensures Happens(all[i], es[i], all[i + 1], h, gp) {
      if i > 0 { assert Happens(states[i - 1], events[i - 1], states[i], h, gp); }
    }
  }
}
