/** The scheduler's critical sections, one step each, on scheduler states. */
module SchedSteps {
  import opened Common
  import opened ReadyQueues
  import opened SchedModel
  import opened SchedPick
  import opened SchedDonations

  datatype Outcome = Stay | Switched(next: nat, resume: Resume)

  /** The result an IPC peer hands over. */
  datatype Delivery = Message(words: seq<nat>) | Ack | PeerGone(code: nat)

  const MSG_WORDS := 5

  // ----- Leaving a hart and being queued -----

  function SetTo(s: Sched, id: nat, t: Thread, l: Latest): (r: Sched)
    requires id < |s.threads| == |s.latest|
  {
    s.(threads := s.threads[id := t], latest := s.latest[id := l])
  }

  /** Thread `id` becomes `t` and is queued. */
  function Queue(s: Sched, id: nat, t: Thread, l: Latest): (r: Sched)
    requires id < |s.threads| == |s.latest| && ThreadOk(t) && t.state == Ready && Shaped(s.ready)
  {
    SetTo(s, id, t, l).(ready := Push(s.ready, PlaceOf(t, s.donations), id))
  }

  lemma QueueInv(s: Sched, hole: int, hole': int, id: nat, t: Thread, l: Latest)
    requires InvBut(s, hole) && ChangeOk(s, hole, hole', id, t, l)
    requires s.threads[id].state in {Running, Blocked} && t.state == Ready
    ensures InvBut(Queue(s, id, t, l), hole')
  {
    var p := PlaceOf(t, s.donations);
    PushQueues(Places(s.threads, s.donations), s.ready, id, p);
    FreeSame(s.threads, s.freeSlots, id, t);
    Change(s, hole, hole', id, t, l, Push(s.ready, p, id), s.freeSlots);
    assert Queue(s, id, t, l)
      == s.(threads := s.threads[id := t], latest := s.latest[id := l], ready := Push(s.ready, p, id),
        freeSlots := s.freeSlots);
  }

  /** A change that does not touch the queues. */
  lemma SetInv(s: Sched, hole: int, hole': int, id: nat, t: Thread, l: Latest)
    requires InvBut(s, hole) && ChangeOk(s, hole, hole', id, t, l)
    requires PlaceOf(t, s.donations) == PlaceOf(s.threads[id], s.donations)
    requires (t.state == Exited <==> s.threads[id].state == Exited)
    ensures InvBut(SetTo(s, id, t, l), hole')
  {
    var places := Places(s.threads, s.donations);
    assert places[id := PlaceOf(t, s.donations)] == places;
    FreeSame(s.threads, s.freeSlots, id, t);
    Change(s, hole, hole', id, t, l, s.ready, s.freeSlots);
    assert SetTo(s, id, t, l) == s.(threads := s.threads[id := t], latest := s.latest[id := l], ready := s.ready,
      freeSlots := s.freeSlots);
  }

  lemma TicksInv(s: Sched, hole: int, h: nat, n: nat)
    requires InvBut(s, hole) && h < MAX_HARTS && n < SLICE_TICKS
    ensures InvBut(s.(ticks := s.ticks[h := n]), hole)
  {
  }

  // ----- Switching -----

  /** `switch_target`: the cooperative context if it is valid, else the frame. */
  function Restore(t: Thread): (r: Resume) {
    if t.ctxValid then ByCtx(t.ctx) else ByFrame(t.frame)
  }

  /** The part common to all cooperative switches, once the current thread has been taken off. */
  function SwitchAway(s: Sched, h: nat): (r: (Sched, Outcome))
    requires h < MAX_HARTS && InvBut(s, h) && s.threads[s.current[h]].state != Running
  {
    TicksInv(s, h, h, 0);
    PickInv(s.(ticks := s.ticks[h := 0]), h);
    var (r, next) := Pick(s.(ticks := s.ticks[h := 0]), h, true, 0);
    (r.(current := r.current[h := next]), Switched(next, Restore(r.threads[next])))
  }

  /** `expand_ctx_to_frame`: a supervisor-mode frame that continues where the context was saved. */
  function Expand(c: Context, gp: nat): (f: seq<nat>)
    requires |c.s| == 12
    ensures |f| == FRAME_WORDS
  {
    seq(FRAME_WORDS, i requires 0 <= i < FRAME_WORDS =>
      if i == FRAME_SEPC then c.ra
      else if i == FRAME_SSTATUS then 0x120
      else if i == X_SP then c.sp
      else if i == X_GP then gp
      else if i == X_S0 then c.s[0]
      else if i == X_S1 then c.s[1]
      else if X_S2 <= i < X_S2 + 10 then c.s[i - X_S2 + 2]
      else 0)
  }

  /** The context is still all there in the frame. */
  function Contract(f: seq<nat>): (c: Context)
    requires |f| == FRAME_WORDS
  {
    Context(f[FRAME_SEPC], f[X_SP], [f[X_S0], f[X_S1]] + f[X_S2..X_S2 + 10])
  }

  lemma ExpandKeeps(c: Context, gp: nat)
    requires |c.s| == 12
    ensures Contract(Expand(c, gp)) == c
    ensures var f := Expand(c, gp);
            f[X_GP] == gp && f[FRAME_SSTATUS] / 0x100 % 2 == 1 && f[FRAME_SSTATUS] / 0x20 % 2 == 1
  {
    var f := Expand(c, gp);
    forall i | 0 <= i < 12 ensures Contract(f).s[i] == c.s[i] {
      if i >= 2 { assert f[X_S2..X_S2 + 10][i - 2] == f[X_S2 + i - 2]; }
    }
    assert Contract(f).s == c.s;
  }

  /** `r` is what the thread saved last, if need be in its expanded form. */
  predicate UpToDate(r: Resume, l: Latest, gp: nat) {
    match l
    case FromCtx(c) => r == ByCtx(c) || (|c.s| == 12 && r == ByFrame(Expand(c, gp)))
    case FromFrame(f) => r == ByFrame(f)
    case Start(c, f) => r == ByCtx(c) || r == ByFrame(f)
  }

  /** After a step the hart runs `o.next`, and unless that is the idle thread it continues from its latest save. */
  ghost predicate Resumes(s: Sched, h: nat, o: Outcome, gp: nat) {
    o.Switched? ==>
      && h < |s.current| && h < |s.idle| && o.next == s.current[h] < |s.threads| == |s.latest|
      && (o.next != s.idle[h] ==>
           UpToDate(o.resume, s.latest[o.next], gp) && (s.threads[o.next].user ==> o.resume.ByFrame?))
  }

  /** A step of hart `h` touches the thread it ran and the thread it runs next, and no IPC result or donation. */
  ghost predicate Local(s: Sched, r: Sched, h: nat) {
    && |r.threads| == |s.threads| == |r.latest| == |s.latest| && r.donations == s.donations && r.idle == s.idle
    && h < |s.current| == |r.current| && h < |s.idle| && s.current[h] < |s.threads| && r.current[h] < |s.threads|
    && (forall g :: 0 <= g < |s.current| && g != h ==> r.current[g] == s.current[g])
    && (forall id :: 0 <= id < |s.threads| ==>
          && r.threads[id].ipcWake == s.threads[id].ipcWake && r.threads[id].ipcMsg == s.threads[id].ipcMsg
          && r.threads[id].user == s.threads[id].user && r.threads[id].proc == s.threads[id].proc
          && r.threads[id].hart == s.threads[id].hart && r.threads[id].prio == s.threads[id].prio
          && (id != s.current[h] && id != r.current[h] ==> r.threads[id] == s.threads[id])
          && (id != s.current[h] ==> r.latest[id] == s.latest[id]))
    && (r.current[h] == s.current[h] || s.threads[r.current[h]].state == Ready || r.current[h] == s.idle[h])
    && (r.threads[s.current[h]].user ==> r.threads[s.current[h]].state != Blocked)
  }

  lemma LocalSwitch(s: Sched, s': Sched, r: Sched, h: nat, next: nat)
    requires h < |s.current| && h < |s.idle| && s.current[h] < |s.threads| && next < |s.threads| == |s'.threads|
    requires s'.threads == s.threads[s.current[h] := s'.threads[s.current[h]]]
    requires s'.donations == s.donations && s'.idle == s.idle && s'.current == s.current
    requires var t, t' := s.threads[s.current[h]], s'.threads[s.current[h]];
             && t'.ipcWake == t.ipcWake && t'.ipcMsg == t.ipcMsg && t'.user == t.user && t'.proc == t.proc
             && t'.hart == t.hart && t'.prio == t.prio && (t.user ==> t'.state != Blocked)
    requires r.threads == s'.threads[next := s'.threads[next].(state := Running)] && r.current == s.current[h := next]
    requires s'.threads[next].state == Ready || next == s.idle[h]
    requires r.donations == s'.donations && r.idle == s'.idle && r.latest == s'.latest
    requires |s.latest| == |s.threads| == |s'.latest|
    requires s'.latest == s.latest[s.current[h] := s'.latest[s.current[h]]]
    ensures Local(s, r, h)
  {
  }

  /** A cooperative switch restores what the flags of the thread say, and only starts that thread. */
  predicate Cooperative(s: Sched, r: Sched, h: nat, o: Outcome) {
    o.Switched? ==>
      && o.next < |s.threads| == |r.threads| && o.resume == Restore(r.threads[o.next]) && h < |s.current|
      && (o.next != s.current[h] ==> r.threads[o.next] == s.threads[o.next].(state := Running))
  }

  /** Threads other than the one that starts to run stay as they are. */
  lemma SwitchInv(s: Sched, h: nat, gp: nat)
    requires h < MAX_HARTS && InvBut(s, h) && s.threads[s.current[h]].state != Running
    ensures var (r, o) := SwitchAway(s, h);
            && Inv(r) && o.Switched? && Resumes(r, h, o, gp) && Cooperative(s, r, h, o)
            && o.next < |s.threads| && r.threads == s.threads[o.next := s.threads[o.next].(state := Running)]
            && s.threads[o.next].hart == h && (s.threads[o.next].state == Ready || o.next == s.idle[h])
            && r.donations == s.donations && r.latest == s.latest && r.idle == s.idle
            && r.current == s.current[h := o.next]
  {
    TicksInv(s, h, h, 0);
    PickInv(s.(ticks := s.ticks[h := 0]), h);
  }

  // ----- Steps of the running thread -----

  /** `yield_`; here the registers are stored in the same step, `SchedSaves` has the store after the lock. */
  function Yield(s: Sched, h: nat, regs: Context): (r: (Sched, Outcome))
    requires Inv(s) && h < MAX_HARTS && !s.threads[s.current[h]].user && |regs.s| == 12
  {
    var cur := s.current[h];
    var t := s.threads[cur].(ctx := regs, frameValid := false, ctxValid := true, state := Ready);
    QueueInv(s, -1, h, cur, t, FromCtx(regs));
    SwitchAway(Queue(s, cur, t, FromCtx(regs)), h)
  }

  /** The thread that hart `h` ran has saved `regs`, and nothing else. */
  predicate Saves(s: Sched, r: Sched, h: nat, regs: Context) {
    && h < |s.current| && s.current[h] < |s.threads| && s.current[h] < |r.threads| && s.current[h] < |r.latest|
    && r.threads[s.current[h]].ctx == regs && r.threads[s.current[h]].ctxValid
    && r.latest[s.current[h]] == FromCtx(regs)
  }

  /** The thread can go on: it runs or it is queued. */
  predicate StaysUp(s: Sched, id: nat) {
    id < |s.threads| && s.threads[id].state in {Ready, Running}
  }

  lemma YieldInv(s: Sched, h: nat, regs: Context, gp: nat)
    requires Inv(s) && h < MAX_HARTS && !s.threads[s.current[h]].user && |regs.s| == 12
    ensures var (r, o) := Yield(s, h, regs);
            && Inv(r) && Resumes(r, h, o, gp) && Local(s, r, h) && StaysUp(r, s.current[h])
            && Cooperative(s, r, h, o) && Saves(s, r, h, regs)
  {
    var cur := s.current[h];
    var t := s.threads[cur].(ctx := regs, frameValid := false, ctxValid := true, state := Ready);
    QueueInv(s, -1, h, cur, t, FromCtx(regs));
    var s' := Queue(s, cur, t, FromCtx(regs));
    SwitchInv(s', h, gp);
    var (r, o) := SwitchAway(s', h);
    LocalSwitch(s, s', r, h, o.next);
  }

  function Parked(t: Thread, regs: Context): (r: Thread) {
    t.(ctx := regs, frameValid := false, ctxValid := true, state := Blocked)
  }

  /** `block_current` */
  function BlockCurrent(s: Sched, h: nat, regs: Context): (r: (Sched, Outcome))
    requires Inv(s) && h < MAX_HARTS && !s.threads[s.current[h]].user && s.current[h] != s.idle[h] && |regs.s| == 12
  {
    var cur := s.current[h];
    var t := s.threads[cur];
    if t.ipcWake != NoWake then
      SetInv(s, -1, -1, cur, t.(ipcWake := NoWake), s.latest[cur]);
      (Revoke(SetTo(s, cur, t.(ipcWake := NoWake), s.latest[cur]), cur), Stay)
    else if t.woken then
      (SetTo(s, cur, t.(woken := false), s.latest[cur]), Stay)
    else
      SetInv(s, -1, h, cur, Parked(t, regs), FromCtx(regs));
      SwitchAway(SetTo(s, cur, Parked(t, regs), FromCtx(regs)), h)
  }

  /** What `block_current` does: it takes a kept result, or a wake-up, and goes on; else it blocks. */
  ghost predicate Parks(s: Sched, h: nat, regs: Context, r: Sched, o: Outcome)
    requires Sized(s) && h < MAX_HARTS
  {
    var cur := s.current[h];
    var t := s.threads[cur];
    && r.idle == s.idle
    && if t.ipcWake != NoWake then
         && o == Stay && r.current == s.current && r.threads == s.threads[cur := t.(ipcWake := NoWake)]
         && r.latest == s.latest
         && forall e: Donation :: e in r.donations <==> e in s.donations && e.donor != cur
       else if t.woken then
         && o == Stay && r.current == s.current && r.threads == s.threads[cur := t.(woken := false)]
         && r.donations == s.donations && r.latest == s.latest
       else
         && o.Switched? && o.next < |s.threads| && o.next != cur && r.donations == s.donations
         && r.current == s.current[h := o.next]
         && s.threads[o.next].hart == h && (s.threads[o.next].state == Ready || o.next == s.idle[h])
         && r.threads == s.threads[cur := Parked(t, regs)][o.next := s.threads[o.next].(state := Running)]
         && r.latest == s.latest[cur := FromCtx(regs)]
  }

  lemma BlockCurrentInv(s: Sched, h: nat, regs: Context, gp: nat)
    requires Inv(s) && h < MAX_HARTS && !s.threads[s.current[h]].user && s.current[h] != s.idle[h] && |regs.s| == 12
    ensures var (r, o) := BlockCurrent(s, h, regs);
            && Inv(r) && Resumes(r, h, o, gp) && Parks(s, h, regs, r, o) && Cooperative(s, r, h, o)
            && (s.threads[s.current[h]].ipcWake == NoWake ==> Local(s, r, h))
  {
    var cur := s.current[h];
    var t := s.threads[cur];
    if t.ipcWake != NoWake {
      SetInv(s, -1, -1, cur, t.(ipcWake := NoWake), s.latest[cur]);
      RevokedInv(SetTo(s, cur, t.(ipcWake := NoWake), s.latest[cur]), cur);
    } else if t.woken {
      SetInv(s, -1, -1, cur, t.(woken := false), s.latest[cur]);
    } else {
      SetInv(s, -1, h, cur, Parked(t, regs), FromCtx(regs));
      var s' := SetTo(s, cur, Parked(t, regs), FromCtx(regs));
      SwitchInv(s', h, gp);
      var (r, o) := SwitchAway(s', h);
      LocalSwitch(s, s', r, h, o.next);
    }
  }

  /** What `block_current` does when the thread runs again: the wake-up is consumed. */
  function AfterBlock(s: Sched, h: nat): (r: Sched)
    requires Inv(s) && h < MAX_HARTS
  {
    var cur := s.current[h];
    SetTo(s, cur, s.threads[cur].(woken := false), s.latest[cur])
  }

  lemma AfterBlockInv(s: Sched, h: nat)
    requires Inv(s) && h < MAX_HARTS
    ensures Inv(AfterBlock(s, h)) && Local(s, AfterBlock(s, h), h)
  {
    SetInv(s, -1, -1, s.current[h], s.threads[s.current[h]].(woken := false), s.latest[s.current[h]]);
  }

  /** `exit` and `exit_from_trap` */
  function Exit(s: Sched, h: nat, regs: Context): (r: (Sched, Outcome))
    requires Inv(s) && h < MAX_HARTS && s.current[h] != s.idle[h] && |regs.s| == 12
  {
    ExitLeaves(s, h, regs);
    SwitchAway(Left(s, h, regs), h)
  }

  /** The current thread of `h` has exited. */
  function Left(s: Sched, h: nat, regs: Context): (r: Sched)
    requires Sized(s) && h < MAX_HARTS
  {
    var cur := s.current[h];
    var t := s.threads[cur].(state := Exited, frameValid := false, ctxValid := true, ctx := regs);
    SetTo(s, cur, t, s.latest[cur]).(freeSlots := s.freeSlots + [cur])
  }

  lemma ExitLeaves(s: Sched, h: nat, regs: Context)
    requires Inv(s) && h < MAX_HARTS && s.current[h] != s.idle[h] && |regs.s| == 12
    ensures InvBut(Left(s, h, regs), h)
  {
    var cur := s.current[h];
    var t := s.threads[cur].(state := Exited, frameValid := false, ctxValid := true, ctx := regs);
    var places := Places(s.threads, s.donations);
    assert places[cur := PlaceOf(t, s.donations)] == places;
    NoDupJoin(s.freeSlots, [cur]);
    Change(s, -1, h, cur, t, s.latest[cur], s.ready, s.freeSlots + [cur]);
    assert Left(s, h, regs)
      == s.(threads := s.threads[cur := t], latest := s.latest[cur := s.latest[cur]], ready := s.ready,
        freeSlots := s.freeSlots + [cur]);
  }

  lemma ExitInv(s: Sched, h: nat, regs: Context, gp: nat)
    requires Inv(s) && h < MAX_HARTS && s.current[h] != s.idle[h] && |regs.s| == 12
    ensures var (r, o) := Exit(s, h, regs);
            && Inv(r) && Resumes(r, h, o, gp) && Local(s, r, h) && Cooperative(s, r, h, o)
            && r.threads[s.current[h]].state == Exited
  {
    ExitLeaves(s, h, regs);
    SwitchInv(Left(s, h, regs), h, gp);
    var (r, o) := SwitchAway(Left(s, h, regs), h);
    LocalSwitch(s, Left(s, h, regs), r, h, o.next);
  }

  /** One round of `secondary_idle`: the idle thread leaves without updating its flags. */
  function IdleRound(s: Sched, h: nat, regs: Context): (r: (Sched, Outcome))
    requires Inv(s) && h < MAX_HARTS && s.current[h] == s.idle[h] && |regs.s| == 12
  {
    QueuedAreThreads(s);
    var cur := s.current[h];
    var (r, next) := Pick(s.(ticks := s.ticks[h := 0]), h, true, 0);
    if next == cur then (r, Stay)
    else
      (r.(current := r.current[h := next], threads := r.threads[cur := r.threads[cur].(ctx := regs)]),
       Switched(next, Restore(r.threads[next])))
  }

  lemma IdleLeaves(s: Sched, h: nat, m: nat, k: nat, regs: Context, gp: nat)
    requires InvBut(s, h) && QueuedExist(s) && h < MAX_HARTS && s.current[h] == s.idle[h] && |regs.s| == 12
    requires m < PRIO_LEVELS && k < |s.ready[h][m]| && s.threads[s.idle[h]].state == Running
    ensures var next, r := s.ready[h][m][k], TakeOut(s, h, m, k);
            var r' := r.(current := s.current[h := next],
              threads := r.threads[s.idle[h] := r.threads[s.idle[h]].(ctx := regs)]);
            && next != s.idle[h] && next < |s.threads| && Inv(r') && Local(s, r', h)
            && Resumes(r', h, Switched(next, Restore(r.threads[next])), gp)
            && r'.threads[next] == s.threads[next].(state := Running)
  {
    Dispatch(s, h, m, k);
    var next, i := s.ready[h][m][k], s.idle[h];
    var r := TakeOut(s, h, m, k).(current := s.current[h := next]);
    SetInv(r, -1, -1, i, r.threads[i].(ctx := regs), r.latest[i]);
    assert r.latest[i := r.latest[i]] == r.latest;
  }

  lemma IdleRoundInv(s: Sched, h: nat, regs: Context, gp: nat)
    requires Inv(s) && h < MAX_HARTS && s.current[h] == s.idle[h] && |regs.s| == 12
    ensures var (r, o) := IdleRound(s, h, regs);
            && Inv(r) && Resumes(r, h, o, gp) && Local(s, r, h) && Cooperative(s, r, h, o)
  {
    var s0 := s.(ticks := s.ticks[h := 0]);
    TicksInv(s, -1, h, 0);
    assert InvBut(s0, h);
    var m, k := PickShape(s0, h, true, 0);
    if m < PRIO_LEVELS {
      IdleLeaves(s0, h, m, k, regs, gp);
    }
  }

  // ----- Steps on other threads -----

  /** `wake` */
  function Wake(s: Sched, id: nat): (r: Sched)
    requires Inv(s)
  {
    if id >= |s.threads| then s
    else
      var t := s.threads[id].(woken := true);
      if t.state == Blocked then Queue(s, id, t.(state := Ready), s.latest[id]) else SetTo(s, id, t, s.latest[id])
  }

  /** A blocked thread is last in its queue now, with its flag up; any other only has its flag up. */
  predicate Wakes(s: Sched, r: Sched, id: nat)
    requires id < |s.threads|
  {
    var t := s.threads[id];
    && |r.threads| == |s.threads| && r.latest == s.latest && r.current == s.current && r.donations == s.donations
    && (forall k :: 0 <= k < |s.threads| && k != id ==> r.threads[k] == s.threads[k])
    && (t.state == Blocked ==> r.threads[id] == t.(state := Ready, woken := true) && LastReady(r, id))
    && (t.state != Blocked ==> r.threads[id] == t.(woken := true) && r.ready == s.ready)
  }

  /** Thread `id` is the last of the level of its hart that it has now. */
  predicate LastReady(s: Sched, id: nat) {
    && id < |s.threads| && s.threads[id].hart < |s.ready|
    && var level := Eff(s.threads[id], s.donations);
       && level < |s.ready[s.threads[id].hart]|
       && s.ready[s.threads[id].hart][level] != []
       && s.ready[s.threads[id].hart][level][|s.ready[s.threads[id].hart][level]| - 1] == id
  }

  lemma WakeInv(s: Sched, id: nat)
    requires Inv(s)
    ensures Inv(Wake(s, id))
    ensures if id < |s.threads| then Wakes(s, Wake(s, id), id) else Wake(s, id) == s
  {
    if id < |s.threads| {
      var t := s.threads[id].(woken := true);
      if t.state == Blocked {
        QueueInv(s, -1, -1, id, t.(state := Ready), s.latest[id]);
      } else {
        SetInv(s, -1, -1, id, t, s.latest[id]);
      }
    }
  }

  /** `set_affinity`, for the threads it accepts. */
  function SetAffinity(s: Sched, id: nat, hart: nat): (r: Sched)
    requires Inv(s) && id < |s.threads| && s.threads[id].state in {Ready, Blocked}
  {
    var h := if hart < MAX_HARTS then hart else MAX_HARTS - 1;
    var t := s.threads[id].(hart := h);
    if s.threads[id].state == Blocked then SetTo(s, id, t, s.latest[id])
    else if s.threads[id].hart == h then s
    else
      var g := s.threads[id].hart;
      Queue(s.(ready := s.ready[g := RemoveFrom(s.ready[g], id)]), id, t, s.latest[id])
  }

  lemma {:induction false} RemoveFromAt(qs: seq<seq<nat>>, id: nat, l: nat)
    requires l < |qs| && id in qs[l] && forall i :: 0 <= i < l ==> id !in qs[i]
    ensures RemoveFrom(qs, id) == qs[l := Without(qs[l], id)]
  {
    if l > 0 {
      RemoveFromAt(qs[1..], id, l - 1);
    }
  }

  lemma {:induction false} RemoveFromNone(qs: seq<seq<nat>>, id: nat)
    requires forall i :: 0 <= i < |qs| ==> id !in qs[i]
    ensures RemoveFrom(qs, id) == qs
  {
    if qs != [] {
      RemoveFromNone(qs[1..], id);
    }
  }

  /** `remove_from_ready` takes a queued thread out of the one queue it is in. */
  lemma RemoveQueues(places: seq<Place>, ready: ReadyTable, id: nat)
    requires Queues(places, ready) && id < |places| && places[id].At?
    ensures var g := places[id].hart;
            Queues(places[id := Nowhere], ready[g := RemoveFrom(ready[g], id)])
  {
    var g, l := places[id].hart, places[id].level;
    forall i | 0 <= i < PRIO_LEVELS ensures id in ready[g][i] <==> i == l {
      assert Holds(ready[g][i], places, At(g, i));
    }
    RemoveFromAt(ready[g], id, l);
    assert Holds(ready[g][l], places, At(g, l));
    WithoutFacts(ready[g][l], id);
    DropQueues(places, ready, id, Without(ready[g][l], id));
    assert ready[g := RemoveFrom(ready[g], id)] == Put(ready, g, l, Without(ready[g][l], id));
  }

  /** A move keeps the invariant exactly when it does not take an idle thread off its hart. */
  lemma SetAffinityIff(s: Sched, id: nat, hart: nat)
    requires Inv(s) && id < |s.threads| && s.threads[id].state in {Ready, Blocked}
    ensures var h := if hart < MAX_HARTS then hart else MAX_HARTS - 1;
            Inv(SetAffinity(s, id, hart)) <==> !IsIdle(s.threads, s.idle, id) || s.threads[id].hart == h
  {
    var h, g := if hart < MAX_HARTS then hart else MAX_HARTS - 1, s.threads[id].hart;
    if !IsIdle(s.threads, s.idle, id) {
      SetAffinityInv(s, id, hart);
    } else if g != h {
      assert SetAffinity(s, id, hart).threads[s.idle[g]].hart != g;
    }
  }

  lemma SetAffinityInv(s: Sched, id: nat, hart: nat)
    requires Inv(s) && id < |s.threads| && s.threads[id].state in {Ready, Blocked} && !IsIdle(s.threads, s.idle, id)
    ensures Inv(SetAffinity(s, id, hart))
  {
    var h := if hart < MAX_HARTS then hart else MAX_HARTS - 1;
    var was, t, places := s.threads[id], s.threads[id].(hart := h), Places(s.threads, s.donations);
    if was.state == Blocked {
      SetInv(s, -1, -1, id, t, s.latest[id]);
    } else if was.hart != h {
      var g := was.hart;
      var removed := s.ready[g := RemoveFrom(s.ready[g], id)];
      RemoveQueues(places, s.ready, id);
      PushQueues(places[id := Nowhere], removed, id, PlaceOf(t, s.donations));
      var ready := Push(removed, PlaceOf(t, s.donations), id);
      assert places[id := Nowhere][id := PlaceOf(t, s.donations)] == places[id := PlaceOf(t, s.donations)];
      FreeSame(s.threads, s.freeSlots, id, t);
      Change(s, -1, -1, id, t, s.latest[id], ready, s.freeSlots);
      assert SetAffinity(s, id, hart)
        == s.(threads := s.threads[id := t], latest := s.latest[id := s.latest[id]], ready := ready,
          freeSlots := s.freeSlots);
    }
  }

  // ----- New threads -----

  /** The slot a new thread gets: the first free one, or the end of the table. */
  function NewSlot(s: Sched): (id: nat) {
    if s.freeSlots != [] then s.freeSlots[0] else |s.threads|
  }

  predicate HasRoom(s: Sched) {
    s.freeSlots != [] || |s.threads| < MAX_THREADS
  }

  function Clamp(prio: nat): (r: nat) {
    if prio < PRIO_LEVELS then prio else PRIO_LEVELS - 1
  }

  /** Level `r` is what a request for `prio` gives: that level, or the last one if there is no such level. */
  predicate Clamped(r: nat, prio: nat) {
    r < PRIO_LEVELS && r <= prio && (r < prio ==> r + 1 == PRIO_LEVELS)
  }

  function StartFrame(sepc: nat, sstatus: nat, sp: nat, gp: nat, a0: nat, a1: nat): (f: seq<nat>)
    ensures |f| == FRAME_WORDS
  {
    seq(FRAME_WORDS, i =>
      if i == FRAME_SEPC then sepc
      else if i == FRAME_SSTATUS then sstatus
      else if i == X_SP then sp
      else if i == X_GP then gp
      else if i == X_A0 then a0
      else if i == X_A1 then a1
      else 0)
  }

  /** A kernel thread as `spawn` makes it: it may be started from its context or from its frame, which agree. */
  function KernelThread(entry: nat, sp: nat, gp: nat, prio: nat, hart: nat): (t: Thread)
    requires hart < MAX_HARTS
    ensures ThreadOk(t) && Fresh(t, Start(t.ctx, t.frame)) && t.ctxValid && t.frame == Expand(t.ctx, gp)
    ensures t.ctx.ra == entry == t.frame[FRAME_SEPC] && t.ctx.sp == sp == t.frame[X_SP] && t.frame[X_GP] == gp
    ensures t.frame[FRAME_SSTATUS] / 0x100 % 2 == 1 && t.frame[FRAME_SSTATUS] / 0x20 % 2 == 1
    ensures Clamped(t.prio, prio) && t.hart == hart && t.proc == None && !t.user && t.state == Ready && !t.woken
  {
    Thread(Clamp(prio), Ready, Context(entry, sp, seq(12, i => 0)), StartFrame(entry, 0x120, sp, gp, 0, 0),
           true, true, false, NoWake, None, None, hart, false)
  }

  /** A user thread as `spawn_user` makes it: it starts from its frame, with the mode bit for user mode. */
  function UserThread(pid: nat, pc: nat, sp: nat, argc: nat, argv: nat, prio: nat, hart: nat): (t: Thread)
    requires hart < MAX_HARTS
    ensures ThreadOk(t) && Fresh(t, Start(t.ctx, t.frame)) && Restore(t) == ByFrame(t.frame)
    ensures t.frame[FRAME_SEPC] == pc && t.frame[X_SP] == sp && t.frame[X_A0] == argc && t.frame[X_A1] == argv
    ensures t.frame[FRAME_SSTATUS] / 0x100 % 2 == 0 && t.frame[FRAME_SSTATUS] / 0x20 % 2 == 1
    ensures Clamped(t.prio, prio) && t.hart == hart && t.proc == Some(pid) && t.user && t.state == Ready && !t.woken
  {
    Thread(Clamp(prio), Ready, Context(pc, sp, seq(12, i => 0)), StartFrame(pc, 0x20, sp, 0, argc, argv),
           true, false, false, NoWake, None, Some(pid), hart, true)
  }

  /** `spawn` and `spawn_user` once the thread has been made. */
  function Spawn(s: Sched, t: Thread): (r: Sched)
    requires Inv(s) && HasRoom(s) && ThreadOk(t) && t.state == Ready
  {
    var id, p, l := NewSlot(s), PlaceOf(t, s.donations), Start(t.ctx, t.frame);
    if s.freeSlots != [] then
      assert s.freeSlots[0] in s.freeSlots;
      s.(threads := s.threads[id := t], latest := s.latest[id := l], ready := Push(s.ready, p, id),
        freeSlots := s.freeSlots[1..])
    else
      s.(threads := s.threads + [t], latest := s.latest + [l], ready := Push(s.ready, p, id))
  }

  /** `r` is `s` with thread `t` in the new slot. */
  ghost predicate Joins(s: Sched, r: Sched, t: Thread) {
    var id := NewSlot(s);
    && r.threads == (if id < |s.threads| then s.threads[id := t] else s.threads + [t])
    && (id < |s.threads| ==> s.threads[id].state == Exited)
    && r.latest == (if id < |s.latest| then s.latest[id := Start(t.ctx, t.frame)]
       else s.latest + [Start(t.ctx, t.frame)])
    && r.donations == s.donations && r.current == s.current && r.idle == s.idle
  }

  lemma SpawnInv(s: Sched, t: Thread)
    requires Inv(s) && HasRoom(s) && ThreadOk(t) && t.state == Ready && Fresh(t, Start(t.ctx, t.frame))
    ensures Inv(Spawn(s, t)) && Joins(s, Spawn(s, t), t) && NewSlot(s) < |Spawn(s, t).threads|
    ensures Spawn(s, t).threads[NewSlot(s)] == t
    ensures Spawn(s, t).idle == s.idle && forall h :: 0 <= h < MAX_HARTS ==> s.idle[h] != NewSlot(s)
  {
    if s.freeSlots != [] {
      assert s.freeSlots[0] in s.freeSlots;
      ReuseInv(s, t);
    } else {
      GrowInv(s, t);
    }
  }

  lemma ReuseInv(s: Sched, t: Thread)
    requires Inv(s) && s.freeSlots != [] && ThreadOk(t) && t.state == Ready && Fresh(t, Start(t.ctx, t.frame))
    ensures Inv(Spawn(s, t))
  {
    var id, p, l := NewSlot(s), PlaceOf(t, s.donations), Start(t.ctx, t.frame);
    assert s.freeSlots[0] in s.freeSlots;
    PushQueues(Places(s.threads, s.donations), s.ready, id, p);
    assert FreeOk(s.threads[id := t], s.freeSlots[1..]) by {
      assert forall x :: x in s.freeSlots <==> x == id || x in s.freeSlots[1..];
    }
    Change(s, -1, -1, id, t, l, Push(s.ready, p, id), s.freeSlots[1..]);
  }

  lemma GrowInv(s: Sched, t: Thread)
    requires Inv(s) && s.freeSlots == [] && |s.threads| < MAX_THREADS && ThreadOk(t) && t.state == Ready
    requires Fresh(t, Start(t.ctx, t.frame))
    ensures Inv(Spawn(s, t))
  {
    var p, places := PlaceOf(t, s.donations), Places(s.threads, s.donations);
    PushNewQueues(places, s.ready, p);
    assert Places(s.threads + [t], s.donations) == places + [p];
    JoinInv(s, t, Start(t.ctx, t.frame));
  }

  lemma JoinInv(s: Sched, t: Thread, l: Latest)
    requires Inv(s) && |s.threads| < MAX_THREADS && ThreadOk(t) && t.state == Ready && Fresh(t, l)
    ensures IdleOk(s.threads + [t], s.idle) && OnHarts(s.threads + [t], s.current, s.idle, -1)
    ensures FreeOk(s.threads + [t], s.freeSlots) && Resumable(s.threads + [t], s.idle, s.latest + [l])
  {
  }

  function Adopted(s: Sched, id: nat, pid: nat): (r: Sched)
    requires id < |s.threads|
  {
    s.(threads := s.threads[id := s.threads[id].(proc := Some(pid))])
  }

  lemma AdoptRequeueable(s: Sched, id: nat, pid: nat)
    requires Inv(s) && id < |s.threads|
    ensures Requeueable(Adopted(s, id, pid), pid)
  {
    var r := Adopted(s, id, pid);
    GatherFacts(Places(s.threads, s.donations), s.ready, OfProc(r.threads, pid), MAX_HARTS, 0);
  }

  /** Joining a process moves a queued thread only if the process has donations. */
  lemma AdoptPlaced(s: Sched, id: nat, pid: nat)
    requires Inv(s) && id < |s.threads| && s.threads[id].state == Ready && s.threads[id].proc == None
    ensures var r := Adopted(s, id, pid);
            if exists i :: 0 <= i < |s.donations| && s.donations[i].peer == pid
            then Requeueable(r, pid) && Placed(r.threads, r.donations, RequeueProc(r, pid).ready)
            else Placed(r.threads, r.donations, r.ready)
  {
    var r := Adopted(s, id, pid);
    var places, places' := Places(s.threads, s.donations), Places(r.threads, r.donations);
    if exists i :: 0 <= i < |s.donations| && s.donations[i].peer == pid {
      AdoptRequeueable(s, id, pid);
      assert Shifts(places, places', OfProc(r.threads, pid));
      RequeueQueues(places, places', r.ready, OfProc(r.threads, pid));
    } else {
      BoostIsBest(s.threads[id].prio, pid, s.donations);
      assert places' == places;
    }
  }

  /** A queued kernel thread joins process `pid`. */
  function Adopt(s: Sched, id: nat, pid: nat): (r: Sched)
    requires Inv(s) && id < |s.threads|
  {
    var r := Adopted(s, id, pid);
    if exists i :: 0 <= i < |s.donations| && s.donations[i].peer == pid then
      AdoptRequeueable(s, id, pid);
      RequeueProc(r, pid)
    else r
  }

  lemma AdoptedRest(s: Sched, id: nat, pid: nat)
    requires Inv(s) && id < |s.threads| && s.threads[id].state == Ready && s.threads[id].proc == None
    requires !IsIdle(s.threads, s.idle, id)
    ensures var r := Adopted(s, id, pid);
            && Sized(r) && OnHarts(r.threads, r.current, r.idle, -1) && IdleOk(r.threads, r.idle)
            && FreeOk(r.threads, r.freeSlots) && Resumable(r.threads, r.idle, r.latest)
  {
    var t, l := s.threads[id].(proc := Some(pid)), s.latest[id];
    FreeSame(s.threads, s.freeSlots, id, t);
    ChangeOnHarts(s, -1, -1, id, t, l);
    ChangeResumable(s, -1, -1, id, t, l);
    assert s.latest[id := l] == s.latest;
  }

  lemma AdoptInv(s: Sched, id: nat, pid: nat)
    requires Inv(s) && id < |s.threads| && s.threads[id].state == Ready && s.threads[id].proc == None
    requires !IsIdle(s.threads, s.idle, id)
    ensures Inv(Adopt(s, id, pid))
  {
    AdoptPlaced(s, id, pid);
    AdoptedRest(s, id, pid);
    var r := Adopt(s, id, pid);
    assert r == Adopted(s, id, pid).(ready := r.ready);
  }

  /** `spawn_owned`: a kernel thread that belongs to a process and so receives its donations. */
  function SpawnOwned(s: Sched, t: Thread, pid: nat): (r: Sched)
    requires Inv(s) && HasRoom(s) && ThreadOk(t) && t.state == Ready && t.proc == None
    requires Fresh(t, Start(t.ctx, t.frame))
  {
    SpawnInv(s, t);
    Adopt(Spawn(s, t), NewSlot(s), pid)
  }

  lemma SpawnOwnedInv(s: Sched, t: Thread, pid: nat)
    requires Inv(s) && HasRoom(s) && ThreadOk(t) && t.state == Ready && t.proc == None
    requires Fresh(t, Start(t.ctx, t.frame))
    ensures Inv(SpawnOwned(s, t, pid)) && Joins(s, SpawnOwned(s, t, pid), t.(proc := Some(pid)))
  {
    SpawnInv(s, t);
    var u, id := Spawn(s, t), NewSlot(s);
    AdoptInv(u, id, pid);
    AdoptShape(u, id, pid);
    JoinsOwned(s, u, Adopt(u, id, pid), t, pid);
  }

  lemma AdoptShape(s: Sched, id: nat, pid: nat)
    requires Inv(s) && id < |s.threads|
    ensures var r := Adopt(s, id, pid);
            && r.threads == s.threads[id := s.threads[id].(proc := Some(pid))]
            && r.donations == s.donations && r.current == s.current && r.idle == s.idle && r.latest == s.latest
  {
  }

  lemma JoinsOwned(s: Sched, u: Sched, r: Sched, t: Thread, pid: nat)
    requires Joins(s, u, t) && NewSlot(s) <= |s.threads| && NewSlot(s) < |u.threads|
    requires r.threads == u.threads[NewSlot(s) := u.threads[NewSlot(s)].(proc := Some(pid))]
    requires r.donations == u.donations && r.current == u.current && r.idle == u.idle && r.latest == u.latest
    ensures Joins(s, r, t.(proc := Some(pid)))
  {
    var t' := t.(proc := Some(pid));
    assert r.threads == if NewSlot(s) < |s.threads| then s.threads[NewSlot(s) := t'] else s.threads + [t'];
  }

  // ----- Start -----

  function IdleThread(frame: seq<nat>, ctx: Context, h: nat): (t: Thread) {
    Thread(PRIO_LEVELS - 1, Running, ctx, frame, false, true, false, NoWake, None, None, h, false)
  }

  /** What `init` leaves: an idle thread running on every hart. */
  function BootSched(frame: seq<nat>, ctx: Context): (s: Sched) {
    var idle := seq(MAX_HARTS, h requires 0 <= h < MAX_HARTS => IdleThread(frame, ctx, h));
    var ids := seq(MAX_HARTS, h requires 0 <= h < MAX_HARTS => h);
    Sched(idle, seq(MAX_HARTS, h => seq(PRIO_LEVELS, l => [])), [], ids, ids, seq(MAX_HARTS, h => 0), [],
          seq(MAX_HARTS, h => FromCtx(ctx)))
  }

  lemma BootSchedInv(frame: seq<nat>, ctx: Context)
    requires |frame| == FRAME_WORDS && |ctx.s| == 12
    ensures Inv(BootSched(frame, ctx))
  {
    var s := BootSched(frame, ctx);
    forall h, l | 0 <= h < MAX_HARTS && 0 <= l < PRIO_LEVELS
      ensures Holds(s.ready[h][l], Places(s.threads, s.donations), At(h, l))
    {
      assert s.ready[h][l] == [];
    }
    assert Placed(s.threads, s.donations, s.ready);
  }
}
