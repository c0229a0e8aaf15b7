/**
  Threads, donations and the scheduler state. The invariant is written as one predicate per
  component so that a step which leaves a component alone leaves its predicate alone.
*/
module SchedModel {
  import opened Common
  import opened ReadyQueues

  const MAX_THREADS := 64
  const MAX_DONATIONS := 64
  const SLICE_TICKS := 10

  const FRAME_WORDS := 36
  const FRAME_SSTATUS := 32
  const FRAME_SEPC := 33
  const X_SP := 1
  const X_GP := 2
  const X_S0 := 7
  const X_S1 := 8
  const X_A0 := 9
  const X_A1 := 10
  const X_S2 := 17

  datatype ThreadState = Ready | Running | Blocked | Exited

  /** Callee-saved registers, as the cooperative switch stores them. */
  datatype Context = Context(ra: nat, sp: nat, s: seq<nat>)

  /** An IPC result that arrived before its thread had blocked. */
  datatype IpcWake = NoWake | Msg(words: seq<nat>) | Failed(code: nat)

  datatype Thread = Thread(
    prio: nat,
    state: ThreadState,
    ctx: Context,
    frame: seq<nat>,
    frameValid: bool,
    ctxValid: bool,
    woken: bool,
    ipcWake: IpcWake,
    ipcMsg: Option<seq<nat>>,
    proc: Option<nat>,
    hart: nat,
    user: bool)

  datatype Donation = Donation(donor: nat, peer: nat, prio: nat)

  /** What a thread saved last, and so what it has to continue from. */
  datatype Latest = FromCtx(ctx: Context) | FromFrame(frame: seq<nat>) | Start(ctx: Context, frame: seq<nat>)

  /** What a switch restores. */
  datatype Resume = ByCtx(ctx: Context) | ByFrame(frame: seq<nat>)

  /** `latest` records, for the statements below, what each thread saved last. */
  datatype Sched = Sched(
    threads: seq<Thread>,
    ready: ReadyTable,
    donations: seq<Donation>,
    current: seq<nat>,
    idle: seq<nat>,
    ticks: seq<nat>,
    freeSlots: seq<nat>,
    latest: seq<Latest>)

  // ----- Effective priority -----

  function Boost(p: nat, pid: nat, ds: seq<Donation>): (r: nat)
    ensures r <= p
  {
    if ds == [] then p
    else Boost(if ds[0].peer == pid && ds[0].prio < p then ds[0].prio else p, pid, ds[1..])
  }

  /** `eff_prio` */
  function Eff(t: Thread, ds: seq<Donation>): (r: nat)
    ensures r <= t.prio
  {
    if t.proc.None? then t.prio else Boost(t.prio, t.proc.value, ds)
  }

  /** The effective priority is the best of the natural one and all donations to the process. */
  lemma {:induction false} BoostIsBest(p: nat, pid: nat, ds: seq<Donation>)
    ensures forall d :: d in ds && d.peer == pid ==> Boost(p, pid, ds) <= d.prio
    ensures Boost(p, pid, ds) == p || exists d :: d in ds && d.peer == pid && d.prio == Boost(p, pid, ds)
  {
    if ds != [] {
      var q := if ds[0].peer == pid && ds[0].prio < p then ds[0].prio else p;
      BoostIsBest(q, pid, ds[1..]);
      assert Boost(p, pid, ds) == Boost(q, pid, ds[1..]);
      assert forall d :: d in ds <==> d == ds[0] || d in ds[1..];
    }
  }

  /** A priority that is at least as good as all candidates and is one of them is the effective one. */
  lemma BoostDetermined(p: nat, pid: nat, ds: seq<Donation>, r: nat)
    requires r <= p && forall d :: d in ds && d.peer == pid ==> r <= d.prio
    requires r == p || exists d :: d in ds && d.peer == pid && d.prio == r
    ensures Boost(p, pid, ds) == r
  {
    BoostIsBest(p, pid, ds);
  }

  // ----- Places -----

  function PlaceOf(t: Thread, ds: seq<Donation>): (r: Place) {
    if t.state == Ready then At(t.hart, Eff(t, ds)) else Nowhere
  }

  function Places(ts: seq<Thread>, ds: seq<Donation>): (r: seq<Place>)
    ensures |r| == |ts| && forall id :: 0 <= id < |ts| ==> r[id] == PlaceOf(ts[id], ds)
  {
    seq(|ts|, id requires 0 <= id < |ts| => PlaceOf(ts[id], ds))
  }

  lemma PlacesUpdate(ts: seq<Thread>, ds: seq<Donation>, id: nat, t: Thread)
    requires id < |ts|
    ensures Places(ts[id := t], ds) == Places(ts, ds)[id := PlaceOf(t, ds)]
  {
  }

  // ----- The invariant -----

  predicate ThreadOk(t: Thread) {
    && t.prio < PRIO_LEVELS && t.hart < MAX_HARTS && |t.frame| == FRAME_WORDS && |t.ctx.s| == 12
    && (t.user ==> t.proc.Some?)
  }

  predicate Sized(s: Sched) {
    && 0 < |s.threads| <= MAX_THREADS && |s.latest| == |s.threads|
    && |s.current| == MAX_HARTS && |s.idle| == MAX_HARTS && |s.ticks| == MAX_HARTS
    && (forall id :: 0 <= id < |s.threads| ==> ThreadOk(s.threads[id]))
    && (forall h :: 0 <= h < MAX_HARTS ==> s.ticks[h] < SLICE_TICKS)
    && (forall h :: 0 <= h < MAX_HARTS ==> s.current[h] < |s.threads| && s.idle[h] < |s.threads|)
  }

  ghost predicate Placed(ts: seq<Thread>, ds: seq<Donation>, ready: ReadyTable) {
    Queues(Places(ts, ds), ready)
  }

  /** The idle thread of a hart is running or queued, and belongs to no process. */
  ghost predicate IdleOk(ts: seq<Thread>, idle: seq<nat>) {
    && |idle| == MAX_HARTS
    && forall h :: 0 <= h < MAX_HARTS ==>
         && idle[h] < |ts| && ts[idle[h]].hart == h && ts[idle[h]].state in {Ready, Running}
         && ts[idle[h]].proc == None && !ts[idle[h]].user
  }

  predicate IsIdle(ts: seq<Thread>, idle: seq<nat>, id: nat)
    requires id < |ts| && ts[id].hart < |idle|
  {
    id == idle[ts[id].hart]
  }

  /**
    Every hart runs its current thread, and apart from idle threads nothing else is running.
    `hole` is a hart whose current thread has just been taken off, or -1.
  */
  ghost predicate OnHarts(ts: seq<Thread>, current: seq<nat>, idle: seq<nat>, hole: int) {
    && |current| == MAX_HARTS && |idle| == MAX_HARTS
    && (forall h :: 0 <= h < MAX_HARTS && h != hole ==>
          current[h] < |ts| && ts[current[h]].state == Running && ts[current[h]].hart == h)
    && (forall id :: 0 <= id < |ts| && ts[id].state == Running ==>
          && ts[id].hart < MAX_HARTS
          && (id == idle[ts[id].hart] || (ts[id].hart != hole && current[ts[id].hart] == id)))
  }

  ghost predicate FreeOk(ts: seq<Thread>, free: seq<nat>) {
    NoDup(free) && forall id: nat :: id in free <==> id < |ts| && ts[id].state == Exited
  }

  /** The flagged data of `t` is what it saved last; a user thread has no cooperative context. */
  predicate Fresh(t: Thread, l: Latest) {
    && (t.user ==> !t.ctxValid)
    && match l
       case FromCtx(c) => t.ctxValid && !t.frameValid && t.ctx == c
       case FromFrame(f) => t.frameValid && !t.ctxValid && t.frame == f
       case Start(c, f) => t.frameValid && t.frame == f && (t.ctxValid ==> t.ctx == c)
  }

  ghost predicate Resumable(ts: seq<Thread>, idle: seq<nat>, latest: seq<Latest>) {
    && |latest| == |ts| && |idle| == MAX_HARTS
    && forall id :: 0 <= id < |ts| && ts[id].state in {Ready, Blocked} ==>
         && ts[id].hart < MAX_HARTS
         && if IsIdle(ts, idle, id) then ts[id].ctxValid || ts[id].frameValid else Fresh(ts[id], latest[id])
  }

  ghost predicate DonationsOk(n: nat, ds: seq<Donation>) {
    && (forall i, j :: 0 <= i < j < |ds| ==> ds[i].donor != ds[j].donor)
    && (forall i :: 0 <= i < |ds| ==> ds[i].donor < n && ds[i].prio < PRIO_LEVELS)
  }

  ghost predicate InvBut(s: Sched, hole: int) {
    var placed, onHarts := Placed(s.threads, s.donations, s.ready), OnHarts(s.threads, s.current, s.idle, hole);
    var idleOk, freeOk := IdleOk(s.threads, s.idle), FreeOk(s.threads, s.freeSlots);
    var resumable, donations := Resumable(s.threads, s.idle, s.latest), DonationsOk(|s.threads|, s.donations);
    var sized := Sized(s);
    sized && placed && onHarts && idleOk && freeOk && resumable && donations
  }

  ghost predicate Inv(s: Sched) {
    InvBut(s, -1)
  }

  /** A thread is queued exactly while ready, once, on the hart it has affinity to and at its effective priority. */
  lemma QueuedExactly(s: Sched, id: nat, h: nat, l: nat)
    requires Inv(s) && h < MAX_HARTS && l < PRIO_LEVELS
    ensures Shaped(s.ready) && NoDup(s.ready[h][l])
    ensures id in s.ready[h][l] <==>
              id < |s.threads| && s.threads[id].state == Ready && s.threads[id].hart == h &&
                Eff(s.threads[id], s.donations) == l
  {
    assert Holds(s.ready[h][l], Places(s.threads, s.donations), At(h, l));
  }

  // ----- How a single thread may change -----

  ghost predicate ChangeOk(s: Sched, hole: int, hole': int, id: nat, t: Thread, l: Latest) {
    && id < |s.threads| && ThreadOk(t) && s.threads[id].hart < |s.idle| == MAX_HARTS == |s.current|
    && var was := s.threads[id];
       var idle, current := IsIdle(s.threads, s.idle, id), s.current[was.hart] == id;
       && (idle ==> t.hart == was.hart && t.state in {Ready, Running} && t.proc == None && !t.user)
       && (t.state in {Ready, Blocked} ==> if idle then t.ctxValid || t.frameValid else Fresh(t, l))
       && (hole' == hole || (hole == -1 && hole' == was.hart && current))
       && (current && was.hart != hole' ==> t.state == Running && t.hart == was.hart)
       && (t.state == Running && !idle ==> was.state == Running && t.hart == was.hart != hole')
  }

  lemma ChangeOnHarts(s: Sched, hole: int, hole': int, id: nat, t: Thread, l: Latest)
    requires ChangeOk(s, hole, hole', id, t, l) && OnHarts(s.threads, s.current, s.idle, hole)
    requires IdleOk(s.threads, s.idle)
    ensures OnHarts(s.threads[id := t], s.current, s.idle, hole') && IdleOk(s.threads[id := t], s.idle)
  {
    var ts, ts' := s.threads, s.threads[id := t];
    forall h | 0 <= h < MAX_HARTS && h != hole'
      ensures s.current[h] < |ts'| && ts'[s.current[h]].state == Running && ts'[s.current[h]].hart == h
    {
      assert h != hole ==> ts[s.current[h]].hart == h;
    }
  }

  lemma ChangeResumable(s: Sched, hole: int, hole': int, id: nat, t: Thread, l: Latest)
    requires ChangeOk(s, hole, hole', id, t, l) && Resumable(s.threads, s.idle, s.latest) && IdleOk(s.threads, s.idle)
    ensures Resumable(s.threads[id := t], s.idle, s.latest[id := l])
  {
    if s.threads[id].hart != t.hart {
      assert s.idle[t.hart] != id;
    }
  }

  /** One thread changes, with the queues and the free slots following it. */
  lemma Change(s: Sched, hole: int, hole': int, id: nat, t: Thread, l: Latest, ready: ReadyTable, free: seq<nat>)
    requires InvBut(s, hole) && ChangeOk(s, hole, hole', id, t, l)
    requires Queues(Places(s.threads, s.donations)[id := PlaceOf(t, s.donations)], ready)
    requires FreeOk(s.threads[id := t], free)
    ensures InvBut(s.(threads := s.threads[id := t], latest := s.latest[id := l], ready := ready, freeSlots := free),
      hole')
  {
    PlacesUpdate(s.threads, s.donations, id, t);
    ChangeOnHarts(s, hole, hole', id, t, l);
    ChangeResumable(s, hole, hole', id, t, l);
  }

  lemma FreeSame(ts: seq<Thread>, free: seq<nat>, id: nat, t: Thread)
    requires FreeOk(ts, free) && id < |ts| && (t.state == Exited <==> ts[id].state == Exited)
    ensures FreeOk(ts[id := t], free)
  {
  }

  // ----- Primitive operations -----

  /** `enqueue` */
  function Enqueue(s: Sched, id: nat): (r: Sched)
    requires id < |s.threads| && ThreadOk(s.threads[id]) && Shaped(s.ready)
  {
    var t := s.threads[id];
    s.(ready := Push(s.ready, At(t.hart, Eff(t, s.donations)), id), threads := s.threads[id := t.(state := Ready)])
  }

  /** `remove_from_ready` */
  function RemoveFrom(qs: seq<seq<nat>>, id: nat): (r: seq<seq<nat>>)
    ensures |r| == |qs|
  {
    if qs == [] then []
    else if id in qs[0] then [Without(qs[0], id)] + qs[1..]
    else [qs[0]] + RemoveFrom(qs[1..], id)
  }

  /** What `pick_next` accepts; `needCtx` on the cooperative path. */
  predicate Pickable(t: Thread, needCtx: bool) {
    t.state == Ready && (t.frameValid || (t.ctxValid && (needCtx || t.woken)))
  }

  /** Position of the first acceptable thread in `q`, or `|q|`. */
  function FirstPick(ts: seq<Thread>, q: seq<nat>, needCtx: bool): (k: nat)
    requires forall i :: 0 <= i < |q| ==> q[i] < |ts|
    ensures k <= |q| && (k < |q| ==> Pickable(ts[q[k]], needCtx))
    ensures forall i :: 0 <= i < k ==> !Pickable(ts[q[i]], needCtx)
  {
    if q == [] then 0
    else if Pickable(ts[q[0]], needCtx) then 0 else 1 + FirstPick(ts, q[1..], needCtx)
  }

  ghost predicate QueuedExist(s: Sched) {
    && Shaped(s.ready)
    && forall h, l, i :: 0 <= h < MAX_HARTS && 0 <= l < PRIO_LEVELS && 0 <= i < |s.ready[h][l]| ==>
       s.ready[h][l][i] < |s.threads|
  }
}
