/** The two runs in which a late store, or a load before it, gives a thread a context that is not its own latest. */
module SchedRaces {
  import opened Common
  import opened ReadyQueues
  import opened SchedModel
  import opened SchedPick
  import opened SchedSteps
  import opened IpcSystem
  import opened IpcRuns
  import opened SchedSaves

  // ----- A slot is reused before the store -----

  /** A thread exits, another hart puts a new thread into its slot, and then the store of the first is done. */
  function Reusing(h: nat, regs: Context, t: Thread): (r: seq<RealOp>) {
    [Do(OnHart(Exiting(h, regs)))] + ([Do(Spawning(t))] + ([Complete(h)] + []))
  }

  lemma ExitFrees(s: Sched, h: nat, regs: Context, gp: nat)
    requires Inv(s) && h < MAX_HARTS && s.current[h] != s.idle[h] && |regs.s| == 12
    ensures var (r, o) := Exit(s, h, regs);
            r.freeSlots == s.freeSlots + [s.current[h]] && o.Switched? && |r.threads| == |s.threads|
  {
    ExitInv(s, h, regs, gp);
    ExitLeaves(s, h, regs);
    SwitchInv(Left(s, h, regs), h, gp);
  }

  /** The slot of the thread that hart `h` is leaving is the next one to be given out. */
  ghost predicate Vacated(z: Real, h: nat, id: nat, regs: Context) {
    && SysInv(z.y) && h < |z.pending| && z.pending[h].Some? && z.pending[h].value.prev == id
    && z.pending[h].value.regs == regs
    && z.y.sched.freeSlots == [id] && id < |z.y.sched.threads| == |z.ctx|
  }

  lemma Vacates(z: Real, h: nat, regs: Context, gp: nat)
    requires Sound(z, gp) && RealEnabled(z, OnHart(Exiting(h, regs))) && z.y.sched.freeSlots == []
    ensures Vacated(RealStep(z, OnHart(Exiting(h, regs)), gp).0, h, z.y.sched.current[h], regs)
  {
    StepKeeps(z.y, OnHart(Exiting(h, regs)), gp);
    ExitFrees(z.y.sched, h, regs, gp);
  }

  /** The slot has been given to `t`, and the store for it is still to come. */
  ghost predicate Reused(z: Real, h: nat, id: nat, regs: Context, t: Thread) {
    && SysInv(z.y) && h < |z.pending| && z.pending[h].Some? && z.pending[h].value.prev == id
    && z.pending[h].value.regs == regs
    && id < |z.y.sched.threads| == |z.ctx| == |z.y.sched.latest|
    && z.y.sched.threads[id] == t && z.y.sched.latest[id] == Start(t.ctx, t.frame)
  }

  lemma Reuses(z: Real, h: nat, id: nat, regs: Context, t: Thread, gp: nat)
    requires Vacated(z, h, id, regs) && NewThread(t)
    ensures RealEnabled(z, Spawning(t))
    ensures Reused(RealStep(z, Spawning(t), gp).0, h, id, regs, t)
  {
    StepKeeps(z.y, Spawning(t), gp);
    SpawnsInto(z.y.sched, t, id);
  }

  lemma SpawnsInto(s: Sched, t: Thread, id: nat)
    requires Inv(s) && s.freeSlots == [id] && NewThread(t)
    ensures ThreadOk(t) && t.state == Ready && NewSlot(s) == id
    ensures var r := Spawn(s, t);
            && id < |r.threads| == |s.threads| == |r.latest| && r.threads[id] == t
            && r.latest[id] == Start(t.ctx, t.frame)
  {
    NewThreadOk(t);
    SpawnInv(s, t);
    assert s.freeSlots[0] == id;
  }

  /** The context at hand for thread `id` is `regs`, which is not what it saved last. */
  ghost predicate Corrupt(z: Real, id: nat, regs: Context, gp: nat) {
    && id < |z.y.sched.threads| == |z.y.sched.latest| == |z.ctx| && z.ctx[id] == regs
    && !UpToDate(ByCtx(z.ctx[id]), z.y.sched.latest[id], gp)
  }

  lemma StoresOver(z: Real, h: nat, id: nat, regs: Context, t: Thread, gp: nat)
    requires Reused(z, h, id, regs, t) && t.ctx != regs
    ensures CanDo(z, Complete(h)) && SysInv(Completed(z, h).y)
    ensures var r := Completed(z, h); Corrupt(r, id, regs, gp) && r.y.sched.threads[id] == t
  {
  }

  /**
    Hart `h` runs a thread that exits; before the registers are stored the slot, which is the only free one,
    is given to a kernel thread. The store then replaces the context of the new thread by that of the dead one.
  */
  lemma LateStore(z: Real, h: nat, regs: Context, t: Thread, gp: nat)
    requires Sound(z, gp) && RealEnabled(z, OnHart(Exiting(h, regs))) && z.y.sched.freeSlots == []
    requires NewThread(t) && !t.user && t.ctx != regs
    ensures RealLegal(z, Reusing(h, regs, t), gp)
    ensures var r, id := RealRun(z, Reusing(h, regs, t), gp), z.y.sched.current[h];
            Corrupt(r, id, regs, gp) && r.y.sched.threads[id] == t
  {
    var exit := OnHart(Exiting(h, regs));
    Vacates(z, h, regs, gp);
    var z1 := RealStep(z, exit, gp).0;
    Reuses(z1, h, z.y.sched.current[h], regs, t, gp);
    var z2 := RealStep(z1, Spawning(t), gp).0;
    StoresOver(z2, h, z.y.sched.current[h], regs, t, gp);
    RealThree(z, Do(exit), z1, Do(Spawning(t)), z2, Complete(h), Completed(z2, h), gp);
  }

  // ----- A thread is moved before the store -----

  /** A thread yields, is moved to the idle hart `g`, and is loaded there before hart `h` has stored it. */
  function Overtaking(h: nat, regs: Context, id: nat, g: nat, idleRegs: Context): (r: seq<RealOp>) {
    [Do(OnHart(Yielding(h, regs)))] + ([Do(Moving(id, g))] + ([Do(OnHart(Idling(g, idleRegs)))] + []))
  }

  /** Thread `id` has left hart `h`, which has not stored it yet; hart `g` is idle and free. */
  ghost predicate Behind(s: Sched, ctx: seq<Context>, pending: seq<Option<Switch>>, h: nat, id: nat, g: nat,
          regs: Context) {
    && h < MAX_HARTS == |pending| && g < MAX_HARTS && g != h && HartFree(pending, g)
    && pending[h].Some? && pending[h].value.prev == id && pending[h].value.regs == regs
    && id < |s.threads| == |ctx| == |s.latest| && s.latest[id] == FromCtx(regs) && id !in s.idle
    && s.threads[id].state == Ready && s.threads[id].ctxValid && !s.threads[id].user && IdleAndAlone(s, g, id)
  }

  ghost predicate LeftBehind(z: Real, h: nat, id: nat, g: nat, regs: Context) {
    SysInv(z.y) && Behind(z.y.sched, z.ctx, z.pending, h, id, g, regs)
  }

  /** Hart `g` runs its idle thread and no thread but perhaps `id` is queued there. */
  ghost predicate IdleAndAlone(s: Sched, g: nat, id: nat) {
    && g < |s.current| && g < |s.idle| && s.current[g] == s.idle[g]
    && forall k :: 0 <= k < |s.threads| && k != id && s.threads[k].hart == g ==> s.threads[k].state != Ready
  }

  /** Hart `h` runs a kernel thread that will yield to another. */
  predicate WillYield(s: Sched, h: nat, regs: Context)
    requires Inv(s)
  {
    && h < MAX_HARTS && !s.threads[s.current[h]].user && |regs.s| == 12 && s.current[h] !in s.idle
    && var o := Yield(s, h, regs).1; o.Switched? && o.next != s.current[h]
  }

  lemma YieldBehind(s: Sched, ctx: seq<Context>, pending: seq<Option<Switch>>, h: nat, g: nat, regs: Context, gp: nat)
    requires Inv(s) && WillYield(s, h, regs) && g < MAX_HARTS && g != h && IdleAndAlone(s, g, s.current[h])
    requires |pending| == MAX_HARTS && HartFree(pending, g) && |ctx| == |s.threads|
    ensures var (r, o) := Yield(s, h, regs);
            Behind(r, ctx, Leaving(pending, h, s.current[h], regs, o), h, s.current[h], g, regs)
  {
    YieldInv(s, h, regs, gp);
  }

  /** Hart `h` will yield its thread, and hart `g` is idle. */
  ghost predicate AboutToYield(z: Real, h: nat, g: nat, regs: Context, gp: nat) {
    && Sound(z, gp) && RealEnabled(z, OnHart(Yielding(h, regs))) && WillYield(z.y.sched, h, regs)
    && g < MAX_HARTS && g != h && HartFree(z.pending, g) && IdleAndAlone(z.y.sched, g, z.y.sched.current[h])
  }

  lemma YieldLeaves(z: Real, h: nat, g: nat, regs: Context, gp: nat)
    requires AboutToYield(z, h, g, regs, gp)
    ensures var r := RealStep(z, OnHart(Yielding(h, regs)), gp).0;
            LeftBehind(r, h, z.y.sched.current[h], g, regs) && r.ctx == z.ctx
  {
    StepKeeps(z.y, OnHart(Yielding(h, regs)), gp);
    YieldBehind(z.y.sched, z.ctx, z.pending, h, g, regs, gp);
  }

  lemma MoveBehind(s: Sched, ctx: seq<Context>, pending: seq<Option<Switch>>, h: nat, id: nat, g: nat, regs: Context)
    requires Inv(s) && Behind(s, ctx, pending, h, id, g, regs)
    ensures !IsIdle(s.threads, s.idle, id)
    ensures var r := SetAffinity(s, id, g); Behind(r, ctx, pending, h, id, g, regs) && r.threads[id].hart == g
  {
    IdleHart(s, id);
    MoveShape(s, id, g);
  }

  lemma MoveLeaves(z: Real, h: nat, id: nat, g: nat, regs: Context, gp: nat)
    requires LeftBehind(z, h, id, g, regs)
    ensures RealEnabled(z, Moving(id, g))
    ensures var r := RealStep(z, Moving(id, g), gp).0;
            LeftBehind(r, h, id, g, regs) && r.ctx == z.ctx && r.y.sched.threads[id].hart == g
  {
    MoveBehind(z.y.sched, z.ctx, z.pending, h, id, g, regs);
    StepKeeps(z.y, Moving(id, g), gp);
  }

  /** Hart `g` is about to load thread `id`, which saved `regs` last. */
  ghost predicate Fetching(s: Sched, ctx: seq<Context>, pending: seq<Option<Switch>>, g: nat, id: nat, regs: Context) {
    && g < |pending| && pending[g].Some? && pending[g].value.prev < |ctx|
    && pending[g].value.next == id && pending[g].value.prev != id && id < |ctx| == |s.threads| == |s.latest|
    && s.threads[id].ctxValid && s.latest[id] == FromCtx(regs)
  }

  ghost predicate Loading(z: Real, g: nat, id: nat, regs: Context) {
    SysInv(z.y) && Fetching(z.y.sched, z.ctx, z.pending, g, id, regs)
  }

  lemma IdleFetches(s: Sched, ctx: seq<Context>, pending: seq<Option<Switch>>, h: nat, id: nat, g: nat, regs: Context,
          idleRegs: Context, gp: nat)
    requires Inv(s) && Behind(s, ctx, pending, h, id, g, regs) && s.threads[id].hart == g && |idleRegs.s| == 12
    ensures var (r, o) := IdleRound(s, g, idleRegs);
            Fetching(r, ctx, Leaving(pending, g, s.current[g], idleRegs, o), g, id, regs)
  {
    IdleStarts(s, g, id, idleRegs);
    IdleRoundInv(s, g, idleRegs, gp);
  }

  lemma IdleLoads(z: Real, h: nat, id: nat, g: nat, regs: Context, idleRegs: Context, gp: nat)
    requires LeftBehind(z, h, id, g, regs) && z.y.sched.threads[id].hart == g && |idleRegs.s| == 12
    ensures RealEnabled(z, OnHart(Idling(g, idleRegs)))
    ensures var r := RealStep(z, OnHart(Idling(g, idleRegs)), gp).0; Loading(r, g, id, regs) && r.ctx == z.ctx
  {
    IdleIsFree(z.y, g);
    StepKeeps(z.y, OnHart(Idling(g, idleRegs)), gp);
    IdleFetches(z.y.sched, z.ctx, z.pending, h, id, g, regs, idleRegs, gp);
  }

  lemma IdleIsFree(y: Sys, g: nat)
    requires SysInv(y) && g < MAX_HARTS && y.sched.current[g] == y.sched.idle[g]
    ensures Free(y, g)
  {
    var i := y.sched.idle[g];
    assert PhaseFits(y.sched.threads[i], y.phase[i], y.sched.current[y.sched.threads[i].hart] == i);
  }

  /**
    Hart `h` runs a kernel thread that yields; before its registers are stored it is moved to the idle hart
    `g`, which starts it. The load takes what was stored for it before, not what it saved last.
  */
  lemma EarlyLoad(z: Real, h: nat, g: nat, regs: Context, idleRegs: Context, gp: nat)
    requires AboutToYield(z, h, g, regs, gp) && |idleRegs.s| == 12 && z.ctx[z.y.sched.current[h]] != regs
    ensures RealLegal(z, Overtaking(h, regs, z.y.sched.current[h], g, idleRegs), gp)
    ensures var id := z.y.sched.current[h];
            var r := RealRun(z, Overtaking(h, regs, id, g, idleRegs), gp);
            && Loading(r, g, id, regs) && Loaded(r, g) == ByCtx(z.ctx[id])
            && !UpToDate(Loaded(r, g), r.y.sched.latest[id], gp)
  {
    var id := z.y.sched.current[h];
    var yield', move, idle := OnHart(Yielding(h, regs)), Moving(id, g), OnHart(Idling(g, idleRegs));
    YieldLeaves(z, h, g, regs, gp);
    var z1 := RealStep(z, yield', gp).0;
    MoveLeaves(z1, h, id, g, regs, gp);
    var z2 := RealStep(z1, move, gp).0;
    IdleLoads(z2, h, id, g, regs, idleRegs, gp);
    var z3 := RealStep(z2, idle, gp).0;
    RealThree(z, Do(yield'), z1, Do(move), z2, Do(idle), z3, gp);
    LoadsStale(z3, g, id, regs, gp);
  }

  lemma LoadsStale(z: Real, g: nat, id: nat, regs: Context, gp: nat)
    requires Loading(z, g, id, regs) && z.ctx[id] != regs
    ensures Loaded(z, g) == ByCtx(z.ctx[id]) && !UpToDate(Loaded(z, g), z.y.sched.latest[id], gp)
  {
  }

  // ----- Both happen -----

  /** A thread that yields while a better one is queued on its hart gives way. */
  lemma YieldsTo(s: Sched, h: nat, regs: Context, b: nat)
    requires Inv(s) && h < MAX_HARTS && !s.threads[s.current[h]].user && |regs.s| == 12 && b < |s.threads|
    requires s.threads[b].state == Ready && s.threads[b].hart == h && s.threads[b].ctxValid
    requires Eff(s.threads[b], s.donations) < Eff(s.threads[s.current[h]], s.donations)
    ensures var o := Yield(s, h, regs).1; o.Switched? && o.next != s.current[h]
  {
    var cur := s.current[h];
    var t := s.threads[cur].(ctx := regs, frameValid := false, ctxValid := true, state := Ready);
    QueueInv(s, -1, h, cur, t, FromCtx(regs));
    var q := Queue(s, cur, t, FromCtx(regs));
    var q' := q.(ticks := q.ticks[h := 0]);
    TicksInv(q, h, h, 0);
    QueuedAreThreads(q');
    LevelPick(q', h, cur, b);
  }

  lemma LevelPick(s: Sched, h: nat, cur: nat, b: nat)
    requires Sized(s) && Placed(s.threads, s.donations, s.ready) && QueuedExist(s) && h < MAX_HARTS && cur < |s.threads|
    requires b < |s.threads|
    requires s.threads[b].hart == h && Pickable(s.threads[b], true) && s.threads[cur].state == Ready
    requires Eff(s.threads[b], s.donations) < Eff(s.threads[cur], s.donations)
    ensures Pick(s, h, true, 0).1 != cur
  {
    var m, k := PickShape(s, h, true, 0);
    QueuedAreThreads(s);
    assert Eff(s.threads[b], s.donations) < PRIO_LEVELS;
    assert m <= Eff(s.threads[b], s.donations);
    assert PlaceOf(s.threads[s.ready[h][m][k]], s.donations) == At(h, m);
  }

  /** The harts run their idle threads, apart from hart 0, which runs `cur`; all slots are in use. */
  ghost predicate Otherwise(s: Sched, cur: nat) {
    && |s.current| == MAX_HARTS == |s.idle| && s.freeSlots == [] && s.donations == [] && MAX_HARTS <= |s.threads|
    && s.current[0] == cur < |s.threads|
    && (forall g :: 0 <= g < MAX_HARTS ==> s.idle[g] == g && (g > 0 ==> s.current[g] == g))
    && forall k :: 0 < k < MAX_HARTS ==> s.threads[k].state == Running
  }

  lemma BootOtherwise(frame: seq<nat>, ctx: Context)
    requires |frame| == FRAME_WORDS && |ctx.s| == 12
    ensures var s := Boot(frame, ctx).sched; Otherwise(s, 0) && |s.threads| == MAX_HARTS && Inv(s)
    ensures SysInv(Boot(frame, ctx)) && forall k :: 0 <= k < MAX_HARTS ==> Boot(frame, ctx).phase[k] == Outside
  {
    BootInv(frame, ctx);
  }

  /** A new thread at the end of the table, while hart 0 goes on with `cur`. */
  lemma SpawnOtherwise(s: Sched, cur: nat, t: Thread)
    requires Inv(s) && Otherwise(s, cur) && |s.threads| < MAX_THREADS && NewThread(t)
    ensures ThreadOk(t) && t.state == Ready && HasRoom(s)
    ensures var r := Spawn(s, t);
            && Inv(r) && Otherwise(r, cur) && r.threads == s.threads + [t]
            && r.latest == s.latest + [Start(t.ctx, t.frame)]
            && NewSlot(s) == |s.threads|
  {
    NewThreadOk(t);
    SpawnInv(s, t);
  }

  /** Hart 0 turns from its idle thread to the only queued thread. */
  lemma IdleOtherwise(s: Sched, id: nat, regs: Context, gp: nat)
    requires Inv(s) && Otherwise(s, 0) && |s.threads| == MAX_HARTS + 1 && id == MAX_HARTS && |regs.s| == 12
    requires s.threads[id].state == Ready && s.threads[id].hart == 0 && s.threads[id].ctxValid
    requires s.threads[0].state == Running
    ensures var (r, o) := IdleRound(s, 0, regs);
            && Inv(r) && Otherwise(r, id) && |r.threads| == MAX_HARTS + 1 && o.Switched? && o.next == id
            && r.threads[id] == s.threads[id].(state := Running)
  {
    IdleStarts(s, 0, id, regs);
    IdleRoundInv(s, 0, regs, gp);
  }

  /** Hart 0 runs a kernel thread and a better one is queued there: both races can begin. */
  lemma RacesCanBegin(s: Sched, id: nat, b: nat, regs: Context)
    requires Inv(s) && Otherwise(s, id) && |s.threads| == MAX_HARTS + 2 && id == MAX_HARTS && b == MAX_HARTS + 1
    requires |regs.s| == 12
    requires !s.threads[id].user && s.threads[id].prio == 1 && s.threads[id].proc == None && s.threads[id].hart == 0
    requires s.threads[b].state == Ready && s.threads[b].hart == 0 && s.threads[b].ctxValid && s.threads[b].prio == 0
    ensures WillYield(s, 0, regs) && IdleAndAlone(s, 1, id) && id !in s.idle
  {
    YieldsTo(s, 0, regs, b);
  }

  /** No call and no switch is in progress. */
  ghost predicate AtRest(z: Real) {
    && |z.y.phase| == |z.y.sched.threads| == |z.ctx| && |z.pending| == MAX_HARTS
    && (forall k :: 0 <= k < |z.y.phase| ==> z.y.phase[k] == Outside)
    && (forall h :: 0 <= h < MAX_HARTS ==> z.pending[h] == None)
  }

  /** Nothing is in progress, and hart 0 runs `cur`. */
  ghost predicate Stage(z: Real, cur: nat, gp: nat) {
    var sound, rest, other := Sound(z, gp), AtRest(z), Otherwise(z.y.sched, cur);
    sound && rest && other
  }

  lemma SpawnAtRest(z: Real, cur: nat, t: Thread, gp: nat)
    requires SysInv(z.y) && AtRest(z) && Otherwise(z.y.sched, cur) && |z.y.sched.threads| < MAX_THREADS && NewThread(t)
    ensures RealEnabled(z, Spawning(t)) && !Displaces(z, Spawning(t))
    ensures var r := RealStep(z, Spawning(t), gp).0;
            && AtRest(r) && Otherwise(r.y.sched, cur) && r.y.sched.threads == z.y.sched.threads + [t]
            && r.ctx == z.ctx + [t.ctx]
  {
    SpawnOtherwise(z.y.sched, cur, t);
  }

  lemma SpawnStage(z: Real, cur: nat, t: Thread, gp: nat)
    requires Stage(z, cur, gp) && |z.y.sched.threads| < MAX_THREADS && NewThread(t)
    ensures RealEnabled(z, Spawning(t))
    ensures var r := RealStep(z, Spawning(t), gp).0;
            Stage(r, cur, gp) && r.y.sched.threads == z.y.sched.threads + [t] && r.ctx == z.ctx + [t.ctx]
  {
    SpawnAtRest(z, cur, t, gp);
    StepSoundIff(z, Spawning(t), gp);
  }

  /** Hart 0 has decided to leave its idle thread for thread `id`. */
  ghost predicate Entering(z: Real, id: nat, regs: Context) {
    && |z.y.phase| == |z.y.sched.threads| == |z.ctx| && z.pending == Entered(regs, id)
    && (forall k :: 0 <= k < |z.y.phase| ==> z.y.phase[k] == Outside)
  }

  function Entered(regs: Context, id: nat): (r: seq<Option<Switch>>) {
    seq(MAX_HARTS, h => None)[0 := Some(Switch(0, regs, id))]
  }

  /** Thread `id`, the last, is queued for hart 0, which is idle. */
  ghost predicate Waits(s: Sched, id: nat) {
    && Otherwise(s, 0) && |s.threads| == MAX_HARTS + 1 && id == MAX_HARTS && s.threads[0].state == Running
    && s.threads[id].state == Ready && s.threads[id].hart == 0 && s.threads[id].ctxValid
  }

  lemma IdleEnters(z: Real, id: nat, regs: Context, gp: nat)
    requires SysInv(z.y) && AtRest(z) && Waits(z.y.sched, id) && |regs.s| == 12
    ensures RealEnabled(z, OnHart(Idling(0, regs)))
    ensures var r := RealStep(z, OnHart(Idling(0, regs)), gp).0;
            && Entering(r, id, regs) && Otherwise(r.y.sched, id) && r.ctx == z.ctx
            && |r.y.sched.threads| == MAX_HARTS + 1 && r.y.sched.threads[id] == z.y.sched.threads[id].(state := Running)
  {
    IdleOtherwise(z.y.sched, id, regs, gp);
    assert RealStep(z, OnHart(Idling(0, regs)), gp).0.pending == Entered(regs, id);
  }

  lemma IdleStage(z: Real, id: nat, regs: Context, gp: nat)
    requires Stage(z, 0, gp) && Waits(z.y.sched, id) && |regs.s| == 12
    ensures RealEnabled(z, OnHart(Idling(0, regs)))
    ensures var r := RealStep(z, OnHart(Idling(0, regs)), gp).0;
            && Sound(r, gp) && Entering(r, id, regs) && Otherwise(r.y.sched, id) && r.ctx == z.ctx
            && |r.y.sched.threads| == MAX_HARTS + 1 && r.y.sched.threads[id] == z.y.sched.threads[id].(state := Running)
  {
    IdleEnters(z, id, regs, gp);
    StepSoundIff(z, OnHart(Idling(0, regs)), gp);
  }

  lemma CompleteStage(z: Real, id: nat, regs: Context, gp: nat)
    requires Sound(z, gp) && Entering(z, id, regs) && Otherwise(z.y.sched, id) && 0 < id < |z.ctx|
    ensures CanDo(z, Complete(0))
    ensures var r := Completed(z, 0); Stage(r, id, gp) && r.y == z.y && r.ctx[id] == z.ctx[id]
  {
    CompleteSound(z, 0, gp);
    CompleteRests(z, id, regs);
  }

  lemma CompleteRests(z: Real, id: nat, regs: Context)
    requires Entering(z, id, regs) && 0 < id < |z.ctx|
    ensures AtRest(Completed(z, 0)) && Completed(z, 0).ctx[id] == z.ctx[id]
  {
  }

  /** From boot: a thread starts on hart 0, and then a better one is made for that hart. */
  function Preparing(a: Thread, b: Thread, regs: Context): (r: seq<RealOp>) {
    [Do(Spawning(a))] + ([Do(OnHart(Idling(0, regs)))] + ([Complete(0)] + ([Do(Spawning(b))] + [])))
  }

  /** Hart 0 runs `a`, the better thread `b` is queued there, and the context of `a` is still its first. */
  ghost predicate BothThere(z: Real, a: Thread, b: Thread, gp: nat) {
    && Stage(z, MAX_HARTS, gp) && |z.y.sched.threads| == MAX_HARTS + 2 == |z.ctx|
    && z.y.sched.threads[MAX_HARTS] == a.(state := Running) && z.y.sched.threads[MAX_HARTS + 1] == b
    && z.ctx[MAX_HARTS] == a.ctx
  }

  /** Hart 0 has turned to thread `a`, whose context is as it was. */
  ghost predicate Started(z: Real, a: Thread, gp: nat) {
    && Stage(z, MAX_HARTS, gp) && |z.y.sched.threads| == MAX_HARTS + 1 == |z.ctx|
    && z.y.sched.threads[MAX_HARTS] == a.(state := Running) && z.ctx[MAX_HARTS] == a.ctx
  }

  lemma Starts(z1: Real, a: Thread, r0: Context, gp: nat) returns (z2: Real, z3: Real)
    requires Stage(z1, 0, gp) && Waits(z1.y.sched, MAX_HARTS) && |r0.s| == 12
    requires z1.y.sched.threads[MAX_HARTS] == a && z1.ctx[MAX_HARTS] == a.ctx
    ensures CanDo(z1, Do(OnHart(Idling(0, r0)))) && z2 == After(z1, Do(OnHart(Idling(0, r0))), gp) && SysInv(z2.y)
    ensures CanDo(z2, Complete(0)) && z3 == After(z2, Complete(0), gp) && SysInv(z3.y)
    ensures Started(z3, a, gp)
  {
    IdleStage(z1, MAX_HARTS, r0, gp);
    z2 := RealStep(z1, OnHart(Idling(0, r0)), gp).0;
    CompleteStage(z2, MAX_HARTS, r0, gp);
    z3 := Completed(z2, 0);
  }

  lemma Joined(z3: Real, a: Thread, b: Thread, gp: nat) returns (z4: Real)
    requires Started(z3, a, gp) && NewThread(b)
    ensures CanDo(z3, Do(Spawning(b))) && z4 == After(z3, Do(Spawning(b)), gp) && SysInv(z4.y)
    ensures BothThere(z4, a, b, gp)
  {
    SpawnStage(z3, MAX_HARTS, b, gp);
    z4 := RealStep(z3, Spawning(b), gp).0;
  }

  lemma Second(z1: Real, a: Thread, b: Thread, r0: Context, gp: nat) returns (z4: Real)
    requires Stage(z1, 0, gp) && Waits(z1.y.sched, MAX_HARTS) && |r0.s| == 12 && NewThread(b)
    requires z1.y.sched.threads[MAX_HARTS] == a && z1.ctx[MAX_HARTS] == a.ctx
    ensures BothThere(z4, a, b, gp)
    ensures var ops := [Do(OnHart(Idling(0, r0)))] + ([Complete(0)] + ([Do(Spawning(b))] + []));
            RealLegal(z1, ops, gp) && RealRun(z1, ops, gp) == z4
  {
    var z2, z3 := Starts(z1, a, r0, gp);
    z4 := Joined(z3, a, b, gp);
    RealThree(z1, Do(OnHart(Idling(0, r0))), z2, Complete(0), z3, Do(Spawning(b)), z4, gp);
  }

  lemma First(z0: Real, a: Thread, gp: nat) returns (z1: Real)
    requires Stage(z0, 0, gp) && |z0.y.sched.threads| == MAX_HARTS && z0.y.sched.threads[0].state == Running
    requires NewThread(a) && a.hart == 0 && a.ctxValid
    ensures CanDo(z0, Do(Spawning(a))) && z1 == After(z0, Do(Spawning(a)), gp) && SysInv(z1.y)
    ensures Stage(z1, 0, gp) && Waits(z1.y.sched, MAX_HARTS)
    ensures z1.y.sched.threads[MAX_HARTS] == a && MAX_HARTS < |z1.ctx| && z1.ctx[MAX_HARTS] == a.ctx
  {
    NewThreadOk(a);
    SpawnStage(z0, 0, a, gp);
    z1 := RealStep(z0, Spawning(a), gp).0;
  }

  lemma Prepared(z0: Real, a: Thread, b: Thread, r0: Context, gp: nat)
    requires Stage(z0, 0, gp) && |z0.y.sched.threads| == MAX_HARTS && |r0.s| == 12
    requires z0.y.sched.threads[0].state == Running
    requires NewThread(a) && a.hart == 0 && a.ctxValid && NewThread(b)
    ensures RealLegal(z0, Preparing(a, b, r0), gp) && BothThere(RealRun(z0, Preparing(a, b, r0), gp), a, b, gp)
  {
    var z1 := First(z0, a, gp);
    var z4 := Second(z1, a, b, r0, gp);
    RealOne(z0, Do(Spawning(a)), [Do(OnHart(Idling(0, r0)))] + ([Complete(0)] + ([Do(Spawning(b))] + [])), gp);
  }

  lemma BootStage(frame: seq<nat>, ctx: Context, gp: nat)
    requires |frame| == FRAME_WORDS && |ctx.s| == 12
    ensures var z := RealBoot(frame, ctx);
            Stage(z, 0, gp) && |z.y.sched.threads| == MAX_HARTS && z.y.sched.threads[0].state == Running
  {
    BootOtherwise(frame, ctx);
    RealBootSound(frame, ctx, gp);
  }

  /**
    From boot, four steps lead to a sound state in which hart 0 may exit or yield its thread: both races are
    runs of the system.
  */
  lemma RacesReachable(frame: seq<nat>, ctx: Context, entry: nat, sp: nat, gp: nat, r0: Context, regs: Context)
    requires |frame| == FRAME_WORDS && |ctx.s| == 12 == |r0.s| == |regs.s|
    requires regs != KernelThread(entry, sp, gp, 1, 0).ctx
    ensures var a, b := KernelThread(entry, sp, gp, 1, 0), KernelThread(entry, sp, gp, 0, 0);
            && SysInv(RealBoot(frame, ctx).y) && RealLegal(RealBoot(frame, ctx), Preparing(a, b, r0), gp)
            && var z := RealRun(RealBoot(frame, ctx), Preparing(a, b, r0), gp);
               && Sound(z, gp) && z.y.sched.freeSlots == [] && RealEnabled(z, OnHart(Exiting(0, regs)))
               && AboutToYield(z, 0, 1, regs, gp) && z.ctx[z.y.sched.current[0]] != regs
  {
    var a, b := KernelThread(entry, sp, gp, 1, 0), KernelThread(entry, sp, gp, 0, 0);
    BootStage(frame, ctx, gp);
    Prepared(RealBoot(frame, ctx), a, b, r0, gp);
    BothBegin(RealRun(RealBoot(frame, ctx), Preparing(a, b, r0), gp), a, b, regs, gp);
  }

  lemma BothBegin(z: Real, a: Thread, b: Thread, regs: Context, gp: nat)
    requires BothThere(z, a, b, gp) && |regs.s| == 12 && regs != a.ctx
    requires !a.user && a.prio == 1 && a.proc == None && a.hart == 0
    requires b.state == Ready && b.hart == 0 && b.ctxValid && b.prio == 0
    ensures Sound(z, gp) && z.y.sched.freeSlots == [] && RealEnabled(z, OnHart(Exiting(0, regs)))
    ensures AboutToYield(z, 0, 1, regs, gp) && z.ctx[z.y.sched.current[0]] != regs
  {
    RacesCanBegin(z.y.sched, MAX_HARTS, MAX_HARTS + 1, regs);
  }
}
