/**
  The store of a context happens after the scheduler lock is released: every cooperative switch decides under
  the lock, and only then stores the registers of the thread it leaves and loads the thread it goes to.
  Meanwhile other harts go on. A thread is resumed from its latest save as long as nobody moves it to another
  hart, and nobody reuses its slot, while its store is outstanding.
*/
module SchedSaves {
  import opened Common
  import opened ReadyQueues
  import opened SchedModel
  import opened SchedSteps
  import opened SchedWake
  import opened SchedTick
  import opened IpcSystem
  import opened IpcRuns

  /** A switch that has been decided: `regs` is still to be stored for `prev`, and `next` to be loaded. */
  datatype Switch = Switch(prev: nat, regs: Context, next: nat)

  /** `y` is the system as if stores were immediate; `ctx` is what is stored, `pending` the switch of each hart. */
  datatype Real = Real(y: Sys, ctx: seq<Context>, pending: seq<Option<Switch>>)

  // ----- Steps -----

  /** The hart that has to be free for a step of its own. */
  function Actor(op: Op): (h: Option<nat>) {
    match op
    case OnHart(hop) => Some(hop.h)
    case Sending(h, _, _) => Some(h)
    case Receiving(h, _) => Some(h)
    case Donating(h) => Some(h)
    case Sleeping(h, _, _) => Some(h)
    case KernelSleeping(h, _) => Some(h)
    case _ => None
  }

  predicate HartFree(pending: seq<Option<Switch>>, h: nat) {
    h < |pending| && pending[h] == None
  }

  ghost predicate RealEnabled(z: Real, op: Op)
    requires SysInv(z.y)
  {
    Enabled(z.y, op) && (Actor(op).Some? ==> HartFree(z.pending, Actor(op).value))
  }

  /** The registers a step has to store if it switches. */
  function Stores(op: Op): (r: Option<Context>) {
    match op
    case OnHart(Yielding(_, regs)) => Some(regs)
    case OnHart(Blocking(_, regs)) => Some(regs)
    case OnHart(Exiting(_, regs)) => Some(regs)
    case OnHart(Idling(_, regs)) => Some(regs)
    case Sleeping(_, _, regs) => Some(regs)
    case KernelSleeping(_, regs) => Some(regs)
    case _ => None
  }

  function Created(op: Op): (t: Option<Thread>) {
    match op
    case Spawning(t) => Some(t)
    case SpawningOwned(t, _) => Some(t)
    case _ => None
  }

  /** The slot `id` of a table that may have to grow. */
  function Slotted(ctx: seq<Context>, id: nat, c: Context): (r: seq<Context>) {
    if id < |ctx| then ctx[id := c] else ctx + [c]
  }

  /** A step of the system: a switch is only decided, a new thread's context is written at once. */
  function RealStep(z: Real, op: Op, gp: nat): (r: (Real, Outcome))
    requires SysInv(z.y) && RealEnabled(z, op)
  {
    var (y, o) := Step(z.y, op, gp);
    var ctx := if Created(op).Some? then Slotted(z.ctx, NewSlot(z.y.sched), Created(op).value.ctx) else z.ctx;
    (Real(y, ctx, Decided(z.pending, z.y.sched, op, o)), o)
  }

  function Decided(pending: seq<Option<Switch>>, s: Sched, op: Op, o: Outcome): (r: seq<Option<Switch>>) {
    var h := HartOf(op);
    if Stores(op).Some? && h < |s.current| then Leaving(pending, h, s.current[h], Stores(op).value, o) else pending
  }

  /** Hart `h` leaves thread `cur` if it switches. */
  function Leaving(pending: seq<Option<Switch>>, h: nat, cur: nat, regs: Context,
          o: Outcome): (r: seq<Option<Switch>>) {
    if o.Switched? && h < |pending| then pending[h := Some(Switch(cur, regs, o.next))] else pending
  }

  /** `do_switch`: the store. */
  function Completed(z: Real, h: nat): (r: Real)
    requires h < |z.pending| && z.pending[h].Some? && z.pending[h].value.prev < |z.ctx|
  {
    var sw := z.pending[h].value;
    Real(z.y, z.ctx[sw.prev := sw.regs], z.pending[h := None])
  }

  /** `do_switch`: the load that follows the store, from the context or the frame of the next thread. */
  function Loaded(z: Real, h: nat): (r: Resume)
    requires h < |z.pending| && z.pending[h].Some? && z.pending[h].value.prev < |z.ctx|
    requires z.pending[h].value.next < |z.ctx| == |z.y.sched.threads|
  {
    var t := z.y.sched.threads[z.pending[h].value.next];
    if t.ctxValid then ByCtx(Completed(z, h).ctx[z.pending[h].value.next]) else ByFrame(t.frame)
  }

  // ----- What is sound -----

  ghost predicate Awaited(pending: seq<Option<Switch>>, id: nat) {
    exists h :: 0 <= h < |pending| && pending[h].Some? && pending[h].value.prev == id
  }

  /** A kernel thread that will be resumed from its context. */
  predicate Resting(s: Sched, id: nat) {
    id < |s.threads| && s.threads[id].state in {Ready, Blocked} && s.threads[id].ctxValid && !s.threads[id].user &&
      id !in s.idle
  }

  /** What is stored for a resting thread is its latest save, unless that is still to be stored. */
  ghost predicate CtxOk(s: Sched, ctx: seq<Context>, pending: seq<Option<Switch>>) {
    && |ctx| == |s.threads|
    && forall id: nat :: id < |s.threads| && Resting(s, id) && !Awaited(pending, id) ==> ctx[id] == s.threads[id].ctx
  }

  /** The store of hart `h` is for a thread that never uses its context, or it is the latest save of a thread of `h`. */
  predicate StoreOk(s: Sched, h: nat, sw: Switch) {
    && sw.prev < |s.threads| == |s.latest| && h < |s.current|
    && var t := s.threads[sw.prev];
       || t.user || t.state == Exited || sw.prev in s.idle
       || (t.hart == h && t.ctx == sw.regs && t.ctxValid && s.latest[sw.prev] == FromCtx(sw.regs)
           && (t.state in {Ready, Blocked} || (t.state == Running && s.current[h] == sw.prev)))
  }

  ghost predicate StoresOk(s: Sched, pending: seq<Option<Switch>>) {
    && |pending| == MAX_HARTS
    && forall h: nat :: h < MAX_HARTS && pending[h].Some? ==> StoreOk(s, h, pending[h].value)
  }

  /** The thread hart `h` is about to load is the one it runs, and will be loaded from its latest save. */
  ghost predicate LoadOk(s: Sched, ctx: seq<Context>, pending: seq<Option<Switch>>, h: nat, sw: Switch, gp: nat) {
    && h < |s.current| && h < |s.idle| && sw.next == s.current[h] < |s.threads| == |s.latest| == |ctx|
    && (sw.next != s.idle[h] ==>
          && UpToDate(Restore(s.threads[sw.next]), s.latest[sw.next], gp)
          && (s.threads[sw.next].user ==> !s.threads[sw.next].ctxValid)
          && (s.threads[sw.next].ctxValid && sw.prev != sw.next ==>
                ctx[sw.next] == s.threads[sw.next].ctx && !Awaited(pending, sw.next)))
  }

  ghost predicate LoadsOk(s: Sched, ctx: seq<Context>, pending: seq<Option<Switch>>, gp: nat) {
    && |pending| == MAX_HARTS
    && forall h: nat :: h < MAX_HARTS && pending[h].Some? ==> LoadOk(s, ctx, pending, h, pending[h].value, gp)
  }

  /** The latest saves are where they belong, or on their way. */
  ghost predicate Saved(s: Sched, ctx: seq<Context>, pending: seq<Option<Switch>>, gp: nat) {
    var c, stores, loads := CtxOk(s, ctx, pending), StoresOk(s, pending), LoadsOk(s, ctx, pending, gp);
    c && stores && loads
  }

  ghost predicate Sound(z: Real, gp: nat) {
    var inv, saved := SysInv(z.y), Saved(z.y.sched, z.ctx, z.pending, gp);
    inv && saved
  }

  // ----- A hart's own steps -----

  /** The step touches the thread that hart `h` ran and the one it runs now. */
  ghost predicate HartOnly(s: Sched, r: Sched, h: nat) {
    && |r.threads| == |s.threads| == |r.latest| == |s.latest| && r.idle == s.idle
    && h < |s.current| == |r.current| && s.current[h] < |s.threads| && r.current[h] < |s.threads|
    && (forall g :: 0 <= g < |s.current| && g != h ==> r.current[g] == s.current[g])
    && (forall id :: 0 <= id < |s.threads| ==>
          && r.threads[id].user == s.threads[id].user && r.threads[id].hart == s.threads[id].hart
          && (id != s.current[h] && id != r.current[h] ==> r.threads[id] == s.threads[id])
          && (id != s.current[h] ==> r.latest[id] == s.latest[id]))
    && (r.current[h] == s.current[h] || s.threads[r.current[h]].state == Ready ||
         (h < |s.idle| && r.current[h] == s.idle[h]))
  }

  lemma LocalHartOnly(s: Sched, r: Sched, h: nat)
    requires Local(s, r, h)
    ensures HartOnly(s, r, h)
  {
  }

  /** A thread with affinity to another hart, or one that has exited, is not touched. */
  lemma Untouched(s: Sched, r: Sched, h: nat, id: nat)
    requires Inv(s) && Inv(r) && h < MAX_HARTS && HartOnly(s, r, h) && id < |s.threads| && id !in s.idle
    requires s.threads[id].state == Exited || s.threads[id].hart != h
    ensures r.threads[id] == s.threads[id] && r.latest[id] == s.latest[id]
  {
  }

  lemma OtherStore(s: Sched, r: Sched, h: nat, g: nat, sw: Switch)
    requires Inv(s) && Inv(r) && h < MAX_HARTS && HartOnly(s, r, h) && g < MAX_HARTS && g != h && StoreOk(s, g, sw)
    ensures StoreOk(r, g, sw)
  {
    var t := s.threads[sw.prev];
    if !t.user && sw.prev !in s.idle { Untouched(s, r, h, sw.prev); }
  }

  /** The other harts' stores and loads are as good as before. */
  lemma OtherStores(s: Sched, r: Sched, pending: seq<Option<Switch>>, h: nat)
    requires Inv(s) && Inv(r) && h < MAX_HARTS && HartOnly(s, r, h) && StoresOk(s, pending)
    ensures forall g: nat :: g < MAX_HARTS && g != h && pending[g].Some? ==> StoreOk(r, g, pending[g].value)
  {
    forall g: nat | g < MAX_HARTS && g != h && pending[g].Some? ensures StoreOk(r, g, pending[g].value) {
      OtherStore(s, r, h, g, pending[g].value);
    }
  }

  /** No store is outstanding for a thread that rests on a free hart. */
  lemma NotAwaited(s: Sched, pending: seq<Option<Switch>>, h: nat, id: nat)
    requires StoresOk(s, pending) && h < MAX_HARTS && pending[h] == None
    requires id < |s.threads| && !s.threads[id].user && s.threads[id].state != Exited && id !in s.idle
    requires s.threads[id].hart == h
    ensures !Awaited(pending, id)
  {
  }

  /** Where only the switch of hart `h` differs, and that one is not for `id`. */
  lemma AwaitedBut(a: seq<Option<Switch>>, b: seq<Option<Switch>>, h: nat, id: nat)
    requires h < |a| == |b| && b == a[h := b[h]] && (b[h].Some? ==> b[h].value.prev != id) && !Awaited(a, id)
    ensures !Awaited(b, id)
  {
    assert forall g :: 0 <= g < |b| && g != h ==> b[g] == a[g];
  }

  lemma OtherLoad(s: Sched, r: Sched, ctx: seq<Context>, pending: seq<Option<Switch>>, pending': seq<Option<Switch>>,
          h: nat, g: nat, gp: nat)
    requires Inv(s) && Inv(r) && h < MAX_HARTS && HartOnly(s, r, h) && g < MAX_HARTS == |pending| == |pending'|
    requires g != h
    requires pending[g].Some? && LoadOk(s, ctx, pending, g, pending[g].value, gp)
    requires pending' == pending[h := pending'[h]] && (pending'[h].Some? ==> pending'[h].value.prev == s.current[h])
    ensures LoadOk(r, ctx, pending', g, pending[g].value, gp)
  {
    var sw := pending[g].value;
    var next := s.current[g];
    assert s.threads[next].hart == g && s.threads[s.current[h]].hart == h;
    if next != s.idle[g] {
      IdleHart(s, next);
      Untouched(s, r, h, next);
      if s.threads[next].ctxValid && sw.prev != next { AwaitedBut(pending, pending', h, next); }
    }
  }

  lemma IdleHart(s: Sched, id: nat)
    requires IdleOk(s.threads, s.idle) && id < |s.threads|
    ensures id in s.idle ==> s.threads[id].hart < MAX_HARTS && s.idle[s.threads[id].hart] == id
  {
  }

  /** A hart that decides to switch: what it leaves will be stored, what it goes to can be loaded. */
  lemma DecideKeeps(s: Sched, r: Sched, ctx: seq<Context>, pending: seq<Option<Switch>>, h: nat, o: Outcome,
          regs: Context, gp: nat)
    requires Inv(s) && Inv(r) && h < MAX_HARTS && HartOnly(s, r, h) && o.Switched? && Cooperative(s, r, h, o)
    requires Resumes(r, h, o, gp)
    requires CtxOk(s, ctx, pending) && StoresOk(s, pending) && LoadsOk(s, ctx, pending, gp) && pending[h] == None
    requires StoreOk(r, h, Switch(s.current[h], regs, o.next))
    ensures var pending' := pending[h := Some(Switch(s.current[h], regs, o.next))];
            CtxOk(r, ctx, pending') && StoresOk(r, pending') && LoadsOk(r, ctx, pending', gp)
  {
    var sw := Switch(s.current[h], regs, o.next);
    var pending' := pending[h := Some(sw)];
    OtherStores(s, r, pending, h);
    DecideCtx(s, r, ctx, pending, h, sw);
    NewLoad(s, r, ctx, pending, h, o, sw, gp);
    forall g: nat | g < MAX_HARTS && pending'[g].Some? ensures LoadOk(r, ctx, pending', g, pending'[g].value, gp) {
      if g != h { OtherLoad(s, r, ctx, pending, pending', h, g, gp); }
    }
  }

  lemma DecideCtx(s: Sched, r: Sched, ctx: seq<Context>, pending: seq<Option<Switch>>, h: nat, sw: Switch)
    requires Inv(s) && Inv(r) && h < MAX_HARTS == |pending| && HartOnly(s, r, h) && CtxOk(s, ctx, pending)
    requires pending[h] == None && sw.prev == s.current[h]
    ensures CtxOk(r, ctx, pending[h := Some(sw)])
  {
    var pending' := pending[h := Some(sw)];
    assert pending'[h].Some? && pending'[h].value.prev == s.current[h];
    forall id: nat | id < |r.threads| && Resting(r, id) && !Awaited(pending', id) ensures ctx[id] == r.threads[id].ctx {
      assert id != s.current[h] && id != r.current[h];
      AwaitedBut(pending', pending, h, id);
    }
  }

  lemma NewLoad(s: Sched, r: Sched, ctx: seq<Context>, pending: seq<Option<Switch>>, h: nat, o: Outcome, sw: Switch,
          gp: nat)
    requires Inv(s) && Inv(r) && h < MAX_HARTS && HartOnly(s, r, h) && o.Switched? && Cooperative(s, r, h, o)
    requires Resumes(r, h, o, gp)
    requires CtxOk(s, ctx, pending) && StoresOk(s, pending) && pending[h] == None && sw.prev == s.current[h]
    requires sw.next == o.next
    ensures LoadOk(r, ctx, pending[h := Some(sw)], h, sw, gp)
  {
    var pending', next := pending[h := Some(sw)], o.next;
    if next != s.idle[h] && r.threads[next].ctxValid && sw.prev != next {
      assert s.threads[next].state == Ready && s.threads[next].hart == h && !s.threads[next].user;
      assert s.threads[next].ctxValid;
      IdleHart(s, next);
      NotAwaited(s, pending, h, next);
      AwaitedBut(pending, pending', h, next);
    }
  }

  /** A hart that does not switch cooperatively leaves no context behind. */
  lemma StayKeeps(s: Sched, r: Sched, ctx: seq<Context>, pending: seq<Option<Switch>>, h: nat, gp: nat)
    requires Inv(s) && Inv(r) && h < MAX_HARTS && HartOnly(s, r, h) && !Resting(r, s.current[h])
    requires CtxOk(s, ctx, pending) && StoresOk(s, pending) && LoadsOk(s, ctx, pending, gp) && pending[h] == None
    ensures CtxOk(r, ctx, pending) && StoresOk(r, pending) && LoadsOk(r, ctx, pending, gp)
  {
    OtherStores(s, r, pending, h);
    assert pending[h := pending[h]] == pending;
    forall g: nat | g < MAX_HARTS && pending[g].Some? ensures LoadOk(r, ctx, pending, g, pending[g].value, gp) {
      OtherLoad(s, r, ctx, pending, pending, h, g, gp);
    }
  }

  // ----- Steps that move no thread on or off a hart -----

  /** Threads are woken, or get a result, or nothing happens to them. */
  ghost predicate Calm(s: Sched, r: Sched) {
    && |r.threads| == |s.threads| == |r.latest| == |s.latest| && r.idle == s.idle && r.current == s.current
    && forall id :: 0 <= id < |s.threads| ==> CalmThread(s.threads[id], r.threads[id], s.latest[id], r.latest[id])
  }

  predicate CalmThread(t: Thread, t': Thread, l: Latest, l': Latest) {
    && t'.user == t.user && t'.hart == t.hart && t'.ctx == t.ctx && t'.ctxValid == t.ctxValid
    && (t'.state == t.state || (t.state == Blocked && t'.state == Ready))
    && (!t.user ==> l' == l) && (t.state == Running ==> l' == l && t'.frame == t.frame)
  }

  lemma CalmKeeps(s: Sched, r: Sched, ctx: seq<Context>, pending: seq<Option<Switch>>, gp: nat)
    requires Inv(s) && Calm(s, r) && CtxOk(s, ctx, pending) && StoresOk(s, pending) && LoadsOk(s, ctx, pending, gp)
    ensures CtxOk(r, ctx, pending) && StoresOk(r, pending) && LoadsOk(r, ctx, pending, gp)
  {
    forall id: nat | id < |r.threads| && Resting(r, id) && !Awaited(pending, id) ensures ctx[id] == r.threads[id].ctx {
      assert CalmThread(s.threads[id], r.threads[id], s.latest[id], r.latest[id]) && Resting(s, id);
    }
    forall h: nat | h < MAX_HARTS && pending[h].Some? ensures StoreOk(r, h, pending[h].value) {
      var id := pending[h].value.prev;
      assert StoreOk(s, h, pending[h].value);
      assert CalmThread(s.threads[id], r.threads[id], s.latest[id], r.latest[id]);
    }
    forall h: nat | h < MAX_HARTS && pending[h].Some? ensures LoadOk(r, ctx, pending, h, pending[h].value, gp) {
      var id := pending[h].value.next;
      assert LoadOk(s, ctx, pending, h, pending[h].value, gp) && s.threads[id].state == Running;
      assert CalmThread(s.threads[id], r.threads[id], s.latest[id], r.latest[id]);
    }
  }

  lemma OneCalm(s: Sched, r: Sched, id: nat)
    requires id < |s.threads| == |r.threads| == |s.latest| == |r.latest| && r.idle == s.idle && r.current == s.current
    requires r.threads == s.threads[id := r.threads[id]] && r.latest == s.latest[id := r.latest[id]]
    requires CalmThread(s.threads[id], r.threads[id], s.latest[id], r.latest[id])
    ensures Calm(s, r)
  {
    forall k | 0 <= k < |s.threads| ensures CalmThread(s.threads[k], r.threads[k], s.latest[k], r.latest[k]) {
      if k != id { assert r.threads[k] == s.threads[k] && r.latest[k] == s.latest[k]; }
    }
  }

  lemma WakeCalm(s: Sched, id: nat)
    requires Inv(s)
    ensures Calm(s, Wake(s, id))
  {
    if id < |s.threads| { OneCalm(s, Wake(s, id), id); }
  }

  lemma DeliverCalm(s: Sched, tid: nat, d: Delivery)
    requires Inv(s) && CanServe(s, tid, d)
    ensures Calm(s, Deliver(s, tid, d))
  {
    DeliverInv(s, tid, d);
    DeliversCalm(s, tid, d, Deliver(s, tid, d));
  }

  lemma DeliversCalm(s: Sched, tid: nat, d: Delivery, r: Sched)
    requires Sized(s) && CanServe(s, tid, d) && Delivers(s, tid, d, r)
    ensures Calm(s, r)
  {
    assert |r.latest| == |s.latest| && |r.threads| == |s.threads|;
    OneCalm(s, r, tid);
  }

  lemma DonateCalm(y: Sys, h: nat)
    requires SysInv(y) && CanDonate(y, h)
    ensures Calm(y.sched, DonateStep(y, h).sched)
  {
    NoDonationYet(y, y.sched.current[h]);
  }

  // ----- The two steps that can go wrong -----

  function Bounded(hart: nat): (h: nat) {
    if hart < MAX_HARTS then hart else MAX_HARTS - 1
  }

  /** A store is outstanding for `id`, on a hart other than `h`. */
  ghost predicate AwaitedElsewhere(pending: seq<Option<Switch>>, id: nat, h: nat) {
    exists g :: 0 <= g < |pending| && pending[g].Some? && pending[g].value.prev == id && g != h
  }

  /** The thread that is moved only changes its hart. */
  lemma MoveShape(s: Sched, id: nat, hart: nat)
    requires Inv(s) && id < |s.threads| && s.threads[id].state in {Ready, Blocked}
    ensures var r := SetAffinity(s, id, hart);
            && r.threads == s.threads[id := s.threads[id].(hart := Bounded(hart))] && r.latest == s.latest
            && r.idle == s.idle && r.current == s.current
  {
  }

  /** Moving a thread is sound exactly when its store is not outstanding on another hart than the new one. */
  lemma MoveIff(s: Sched, r: Sched, ctx: seq<Context>, pending: seq<Option<Switch>>, id: nat, h: nat, gp: nat)
    requires Inv(s) && CtxOk(s, ctx, pending) && StoresOk(s, pending) && LoadsOk(s, ctx, pending, gp)
    requires id < |s.threads| && s.threads[id].state in {Ready, Blocked} && id !in s.idle
    requires r.threads == s.threads[id := s.threads[id].(hart := h)] && r.latest == s.latest && r.idle == s.idle
    requires r.current == s.current
    ensures CtxOk(r, ctx, pending) && LoadsOk(r, ctx, pending, gp)
    ensures StoresOk(r, pending) <==> s.threads[id].user || !AwaitedElsewhere(pending, id, h)
  {
    forall k: nat | k < |r.threads| && Resting(r, k) && !Awaited(pending, k) ensures ctx[k] == r.threads[k].ctx {
      assert Resting(s, k);
    }
    forall g: nat | g < MAX_HARTS && pending[g].Some? ensures LoadOk(r, ctx, pending, g, pending[g].value, gp) {
      assert LoadOk(s, ctx, pending, g, pending[g].value, gp) && s.threads[s.current[g]].state == Running;
    }
    forall g: nat | g < MAX_HARTS && pending[g].Some?
      ensures StoreOk(r, g, pending[g].value) <==> s.threads[id].user || pending[g].value.prev != id || g == h
    {
      assert StoreOk(s, g, pending[g].value);
    }
  }

  /** Reusing a slot is sound exactly when no store is outstanding for it, or the new thread has no context. */
  lemma SpawnIff(s: Sched, r: Sched, ctx: seq<Context>, pending: seq<Option<Switch>>, t: Thread, gp: nat)
    requires Inv(s) && CtxOk(s, ctx, pending) && StoresOk(s, pending) && LoadsOk(s, ctx, pending, gp)
    requires Joins(s, r, t) && NewSlot(s) <= |s.threads| && NewSlot(s) !in s.idle && t.state == Ready
    ensures var ctx' := Slotted(ctx, NewSlot(s), t.ctx);
            && CtxOk(r, ctx', pending) && LoadsOk(r, ctx', pending, gp)
            && (StoresOk(r, pending) <==> t.user || !Awaited(pending, NewSlot(s)))
  {
    SpawnCtx(s, r, ctx, pending, t);
    SpawnStores(s, r, pending, t);
    forall g: nat | g < MAX_HARTS && pending[g].Some?
      ensures LoadOk(r, Slotted(ctx, NewSlot(s), t.ctx), pending, g, pending[g].value, gp)
    {
      assert LoadOk(s, ctx, pending, g, pending[g].value, gp) && s.threads[s.current[g]].state == Running;
    }
  }

  lemma SpawnCtx(s: Sched, r: Sched, ctx: seq<Context>, pending: seq<Option<Switch>>, t: Thread)
    requires CtxOk(s, ctx, pending) && Joins(s, r, t) && NewSlot(s) <= |s.threads|
    ensures CtxOk(r, Slotted(ctx, NewSlot(s), t.ctx), pending)
  {
    var ctx' := Slotted(ctx, NewSlot(s), t.ctx);
    forall k: nat | k < |r.threads| && Resting(r, k) && !Awaited(pending, k) ensures ctx'[k] == r.threads[k].ctx {
      if k != NewSlot(s) { assert Resting(s, k); }
    }
  }

  lemma SpawnStores(s: Sched, r: Sched, pending: seq<Option<Switch>>, t: Thread)
    requires StoresOk(s, pending) && Joins(s, r, t) && NewSlot(s) <= |s.threads| == |s.latest| && NewSlot(s) !in s.idle
    requires t.state == Ready
    ensures StoresOk(r, pending) <==> t.user || !Awaited(pending, NewSlot(s))
  {
    forall g: nat | g < MAX_HARTS && pending[g].Some?
      ensures StoreOk(r, g, pending[g].value) <==> t.user || pending[g].value.prev != NewSlot(s)
    {
      assert StoreOk(s, g, pending[g].value);
    }
  }

  // ----- The late store and load -----

  /** The store and the load of a hart leave everything sound, and what is loaded is the latest save. */
  lemma CompleteSound(z: Real, h: nat, gp: nat)
    requires Sound(z, gp) && h < MAX_HARTS && z.pending[h].Some?
    ensures z.pending[h].value.prev < |z.ctx| && z.pending[h].value.next < |z.ctx| == |z.y.sched.threads|
    ensures Sound(Completed(z, h), gp)
    ensures var s, next := z.y.sched, z.pending[h].value.next;
            next == s.current[h] && (next != s.idle[h] ==> UpToDate(Loaded(z, h), s.latest[next], gp))
  {
    var s, sw := z.y.sched, z.pending[h].value;
    assert StoreOk(s, h, sw) && LoadOk(s, z.ctx, z.pending, h, sw, gp);
    IdleHart(s, sw.next);
    CompleteKeeps(s, z.ctx, z.pending, h, gp);
  }

  lemma CompleteKeeps(s: Sched, ctx: seq<Context>, pending: seq<Option<Switch>>, h: nat, gp: nat)
    requires Inv(s) && CtxOk(s, ctx, pending) && StoresOk(s, pending) && LoadsOk(s, ctx, pending, gp)
    requires h < MAX_HARTS && pending[h].Some? && pending[h].value.prev < |ctx|
    ensures var sw := pending[h].value;
            var ctx', pending' := ctx[sw.prev := sw.regs], pending[h := None];
            CtxOk(s, ctx', pending') && StoresOk(s, pending') && LoadsOk(s, ctx', pending', gp)
  {
    var sw := pending[h].value;
    var ctx', pending' := ctx[sw.prev := sw.regs], pending[h := None];
    assert StoreOk(s, h, sw);
    forall id: nat | id < |s.threads| && Resting(s, id) && !Awaited(pending', id)
      ensures ctx'[id] == s.threads[id].ctx
    {
      if id != sw.prev { AwaitedBut(pending', pending, h, id); }
    }
    forall g: nat | g < MAX_HARTS && pending'[g].Some? ensures LoadOk(s, ctx', pending', g, pending'[g].value, gp) {
      CompleteLoad(s, ctx, pending, h, g, gp);
    }
  }

  lemma CompleteLoad(s: Sched, ctx: seq<Context>, pending: seq<Option<Switch>>, h: nat, g: nat, gp: nat)
    requires h < MAX_HARTS == |pending| && pending[h].Some? && pending[h].value.prev < |ctx| && g < MAX_HARTS && g != h
    requires pending[g].Some? && LoadOk(s, ctx, pending, g, pending[g].value, gp)
    ensures LoadOk(s, ctx[pending[h].value.prev := pending[h].value.regs], pending[h := None], g, pending[g].value, gp)
  {
    var sw := pending[g].value;
    if sw.next != s.idle[g] && s.threads[sw.next].ctxValid && sw.prev != sw.next {
      assert pending[h].value.prev != sw.next;
      AwaitedBut(pending, pending[h := None], h, sw.next);
    }
  }

  // ----- Each step of a hart -----

  lemma YieldSound(s: Sched, ctx: seq<Context>, pending: seq<Option<Switch>>, h: nat, regs: Context, gp: nat)
    requires Inv(s) && Saved(s, ctx, pending, gp)
    requires h < MAX_HARTS && HartFree(pending, h) && !s.threads[s.current[h]].user && |regs.s| == 12
    ensures var (r, o) := Yield(s, h, regs);
            o.Switched? && Saved(r, ctx, Leaving(pending, h, s.current[h], regs, o), gp)
  {
    YieldInv(s, h, regs, gp);
    var (r, o) := Yield(s, h, regs);
    LocalHartOnly(s, r, h);
    assert StoreOk(r, h, Switch(s.current[h], regs, o.next));
    DecideKeeps(s, r, ctx, pending, h, o, regs, gp);
  }

  lemma ExitSound(s: Sched, ctx: seq<Context>, pending: seq<Option<Switch>>, h: nat, regs: Context, gp: nat)
    requires Inv(s) && Saved(s, ctx, pending, gp)
    requires h < MAX_HARTS && HartFree(pending, h) && s.current[h] != s.idle[h] && |regs.s| == 12
    ensures var (r, o) := Exit(s, h, regs);
            o.Switched? && Saved(r, ctx, Leaving(pending, h, s.current[h], regs, o), gp)
  {
    ExitInv(s, h, regs, gp);
    var (r, o) := Exit(s, h, regs);
    LocalHartOnly(s, r, h);
    DecideKeeps(s, r, ctx, pending, h, o, regs, gp);
  }

  lemma IdleSound(s: Sched, ctx: seq<Context>, pending: seq<Option<Switch>>, h: nat, regs: Context, gp: nat)
    requires Inv(s) && Saved(s, ctx, pending, gp)
    requires h < MAX_HARTS && HartFree(pending, h) && s.current[h] == s.idle[h] && |regs.s| == 12
    ensures var (r, o) := IdleRound(s, h, regs);
            Saved(r, ctx, Leaving(pending, h, s.current[h], regs, o), gp)
  {
    IdleRoundInv(s, h, regs, gp);
    var (r, o) := IdleRound(s, h, regs);
    LocalHartOnly(s, r, h);
    if o.Switched? { DecideKeeps(s, r, ctx, pending, h, o, regs, gp); } else { StayKeeps(s, r, ctx, pending, h, gp); }
  }

  lemma ParksHartOnly(s: Sched, h: nat, regs: Context, r: Sched, o: Outcome)
    requires Inv(s) && Inv(r) && h < MAX_HARTS && Parks(s, h, regs, r, o)
    ensures HartOnly(s, r, h)
  {
  }

  lemma ParkSound(s: Sched, ctx: seq<Context>, pending: seq<Option<Switch>>, h: nat, regs: Context, gp: nat)
    requires Inv(s) && Saved(s, ctx, pending, gp)
    requires CanPark(s, h, regs) && HartFree(pending, h)
    ensures var (r, o) := BlockCurrent(s, h, regs);
            Saved(r, ctx, Leaving(pending, h, s.current[h], regs, o), gp)
  {
    BlockCurrentInv(s, h, regs, gp);
    var (r, o) := BlockCurrent(s, h, regs);
    ParksHartOnly(s, h, regs, r, o);
    if o.Switched? { DecideKeeps(s, r, ctx, pending, h, o, regs, gp); } else { StayKeeps(s, r, ctx, pending, h, gp); }
  }

  lemma BlocksHartOnly(s: Sched, h: nat, frame: seq<nat>, regs: Context, r: Sched, o: Outcome, f: seq<nat>)
    requires Inv(s) && Inv(r) && CanBlock(s, h, frame, regs) && Blocks(s, h, frame, regs, r, o, f)
    ensures HartOnly(s, r, h)
  {
  }

  lemma UserBlockSound(s: Sched, ctx: seq<Context>, pending: seq<Option<Switch>>, h: nat, frame: seq<nat>,
          regs: Context, gp: nat)
    requires Inv(s) && Saved(s, ctx, pending, gp)
    requires CanBlock(s, h, frame, regs) && HartFree(pending, h)
    ensures var (r, o, f) := BlockUser(s, h, frame, regs);
            Saved(r, ctx, Leaving(pending, h, s.current[h], regs, o), gp)
  {
    BlockUserInv(s, h, frame, regs, gp);
    var (r, o, f) := BlockUser(s, h, frame, regs);
    BlocksHartOnly(s, h, frame, regs, r, o, f);
    if o.Switched? { DecideKeeps(s, r, ctx, pending, h, o, regs, gp); } else { StayKeeps(s, r, ctx, pending, h, gp); }
  }

  /** A tick reads the context it expands under the lock: in a sound state it is the latest save. */
  lemma TickSound(s: Sched, ctx: seq<Context>, pending: seq<Option<Switch>>, h: nat, frame: seq<nat>, gp: nat)
    requires Inv(s) && Saved(s, ctx, pending, gp)
    requires h < MAX_HARTS && HartFree(pending, h) && |frame| == FRAME_WORDS
    ensures var (r, o) := Tick(s, h, frame, gp);
            && Saved(r, ctx, pending, gp)
            && (o.Switched? && o.next != s.idle[h] && !s.threads[o.next].frameValid ==>
                  |ctx[o.next].s| == 12 && o.resume == ByFrame(Expand(ctx[o.next], gp)))
  {
    TickInv(s, h, frame, gp);
    var (r, o) := Tick(s, h, frame, gp);
    LocalHartOnly(s, r, h);
    StayKeeps(s, r, ctx, pending, h, gp);
    if o.Switched? && o.next != s.idle[h] && !s.threads[o.next].frameValid {
      IdleHart(s, o.next);
      assert Resting(s, o.next) && s.threads[o.next].hart == h;
      NotAwaited(s, pending, h, o.next);
    }
  }

  lemma QuietSound(s: Sched, r: Sched, ctx: seq<Context>, pending: seq<Option<Switch>>, h: nat, gp: nat)
    requires Inv(s) && Inv(r) && h < MAX_HARTS && Saved(s, ctx, pending, gp) && HartFree(pending, h)
    requires HartOnly(s, r, h) && r.current[h] == s.current[h]
    ensures Saved(r, ctx, pending, gp)
  {
    StayKeeps(s, r, ctx, pending, h, gp);
  }

  lemma AfterBlockSound(s: Sched, ctx: seq<Context>, pending: seq<Option<Switch>>, h: nat, gp: nat)
    requires Inv(s) && h < MAX_HARTS && Saved(s, ctx, pending, gp) && HartFree(pending, h)
    ensures Saved(AfterBlock(s, h), ctx, pending, gp)
  {
    AfterBlockInv(s, h);
    LocalHartOnly(s, AfterBlock(s, h), h);
    QuietSound(s, AfterBlock(s, h), ctx, pending, h, gp);
  }

  lemma TakeSound(s: Sched, ctx: seq<Context>, pending: seq<Option<Switch>>, h: nat, gp: nat)
    requires Inv(s) && h < MAX_HARTS && Saved(s, ctx, pending, gp) && HartFree(pending, h)
    ensures Saved(TakeMsg(s, h).0, ctx, pending, gp)
  {
    TakeMsgInv(s, h);
    assert HartOnly(s, TakeMsg(s, h).0, h);
    QuietSound(s, TakeMsg(s, h).0, ctx, pending, h, gp);
  }

  lemma HartSound(y: Sys, ctx: seq<Context>, pending: seq<Option<Switch>>, op: HartOp, gp: nat)
    requires SysInv(y) && HartEnabled(y, op) && Saved(y.sched, ctx, pending, gp) && HartFree(pending, op.h)
    ensures var (r, o) := HartStep(y, op, gp); Saved(r, ctx, Decided(pending, y.sched, OnHart(op), o), gp)
  {
    var s := y.sched;
    match op
    case Yielding(h, regs) => YieldSound(s, ctx, pending, h, regs, gp);
    case Blocking(h, regs) => ParkSound(s, ctx, pending, h, regs, gp);
    case Exiting(h, regs) => ExitSound(s, ctx, pending, h, regs, gp);
    case Idling(h, regs) => IdleSound(s, ctx, pending, h, regs, gp);
    case Ticking(h, frame) => TickSound(s, ctx, pending, h, frame, gp);
    case Resuming(h) => AfterBlockSound(s, ctx, pending, h, gp);
    case Taking(h) => TakeSound(s, ctx, pending, h, gp);
  }

  lemma UserCallIs(y: Sys, h: nat, frame: seq<nat>, regs: Context)
    requires SysInv(y) && UserAtBlock(y, h, frame, regs)
    ensures CanBlock(y.sched, h, frame, regs)
    ensures var (r, o, f), (s, o', f') := BlockStep(y, h, frame, regs), BlockUser(y.sched, h, frame, regs);
            r.sched == s && o == o'
  {
    var cur := y.sched.current[h];
    assert PhaseFits(y.sched.threads[cur], y.phase[cur], true);
  }

  lemma KernelCallIs(y: Sys, h: nat, regs: Context)
    requires SysInv(y) && KernelAtBlock(y, h, regs)
    ensures CanPark(y.sched, h, regs)
    ensures var (r, o), (s, o') := KernelBlock(y, h, regs), BlockCurrent(y.sched, h, regs); r.sched == s && o == o'
  {
    var cur := y.sched.current[h];
    assert PhaseFits(y.sched.threads[cur], y.phase[cur], true);
  }

  /** Steps that neither switch nor move nor create a thread. */
  lemma CalmSound(y: Sys, ctx: seq<Context>, pending: seq<Option<Switch>>, op: Op, gp: nat)
    requires SysInv(y) && Enabled(y, op) && Saved(y.sched, ctx, pending, gp)
    requires op.Waking? || op.Delivering? || op.Donating? || op.Sending? || op.Receiving? || op.Purging?
    ensures Saved(Step(y, op, gp).0.sched, ctx, pending, gp)
  {
    var s := y.sched;
    match op
    case Waking(id) =>
      WakeCalm(s, id);
      CalmKeeps(s, Wake(s, id), ctx, pending, gp);
    case Delivering(i) =>
      Addressee(y, i);
      DeliverCalm(s, y.transit[i].tid, y.transit[i].d);
      CalmKeeps(s, Deliver(s, y.transit[i].tid, y.transit[i].d), ctx, pending, gp);
    case Donating(h) =>
      DonateCalm(y, h);
      CalmKeeps(s, DonateStep(y, h).sched, ctx, pending, gp);
    case _ =>
  }

  // ----- Exactly when -----

  /**
    The step takes a thread to another hart while its store is outstanding, or puts a kernel thread into a
    slot for which a store is outstanding.
  */
  ghost predicate Displaces(z: Real, op: Op) {
    match op
    case Moving(id, hart) =>
      id < |z.y.sched.threads| && !z.y.sched.threads[id].user && AwaitedElsewhere(z.pending, id, Bounded(hart))
    case Spawning(t) => !t.user && Awaited(z.pending, NewSlot(z.y.sched))
    case SpawningOwned(t, _) => !t.user && Awaited(z.pending, NewSlot(z.y.sched))
    case _ => false
  }

  lemma MovingIff(z: Real, id: nat, hart: nat, gp: nat)
    requires SysInv(z.y) && Saved(z.y.sched, z.ctx, z.pending, gp) && Enabled(z.y, Moving(id, hart))
    ensures Saved(SetAffinity(z.y.sched, id, hart), z.ctx, z.pending, gp) <==> !Displaces(z, Moving(id, hart))
  {
    var s := z.y.sched;
    MoveShape(s, id, hart);
    IdleHart(s, id);
    MoveIff(s, SetAffinity(s, id, hart), z.ctx, z.pending, id, Bounded(hart), gp);
  }

  lemma SpawningIff(z: Real, t: Thread, gp: nat)
    requires Inv(z.y.sched) && Saved(z.y.sched, z.ctx, z.pending, gp) && NewThread(t) && HasRoom(z.y.sched)
    ensures var ctx := Slotted(z.ctx, NewSlot(z.y.sched), t.ctx);
            Saved(SpawnStep(z.y, t).sched, ctx, z.pending, gp) <==> !Displaces(z, Spawning(t))
  {
    var s := z.y.sched;
    NewThreadOk(t);
    SpawnInv(s, t);
    NewSlotFree(s);
    SpawnIff(s, Spawn(s, t), z.ctx, z.pending, t, gp);
  }

  lemma SpawningOwnedIff(z: Real, t: Thread, pid: nat, gp: nat)
    requires Inv(z.y.sched) && Saved(z.y.sched, z.ctx, z.pending, gp) && NewThread(t) && t.proc == None
    requires HasRoom(z.y.sched)
    ensures var ctx := Slotted(z.ctx, NewSlot(z.y.sched), t.ctx);
            Saved(SpawnOwnedStep(z.y, t, pid).sched, ctx, z.pending, gp) <==> !Displaces(z, SpawningOwned(t, pid))
  {
    var s := z.y.sched;
    NewThreadOk(t);
    SpawnInv(s, t);
    SpawnOwnedInv(s, t, pid);
    NewSlotFree(s);
    SpawnIff(s, SpawnOwned(s, t, pid), z.ctx, z.pending, t.(proc := Some(pid)), gp);
  }

  lemma NewSlotFree(s: Sched)
    requires Inv(s)
    ensures NewSlot(s) <= |s.threads| && NewSlot(s) !in s.idle
  {
    if s.freeSlots != [] { assert s.freeSlots[0] in s.freeSlots; }
  }

  /**
    Every step of every hart keeps the latest saves where they belong, exactly when it does not displace a
    thread whose store is outstanding.
  */
  lemma StepSoundIff(z: Real, op: Op, gp: nat)
    requires Sound(z, gp) && RealEnabled(z, op)
    ensures Sound(RealStep(z, op, gp).0, gp) <==> !Displaces(z, op)
  {
    StepKeeps(z.y, op, gp);
    SavedIff(z, op, gp);
  }

  /** Only moving and creating threads can displace anything. */
  lemma SavedIff(z: Real, op: Op, gp: nat)
    requires SysInv(z.y) && Saved(z.y.sched, z.ctx, z.pending, gp) && RealEnabled(z, op)
    ensures var r := RealStep(z, op, gp).0; Saved(r.y.sched, r.ctx, r.pending, gp) <==> !Displaces(z, op)
  {
    match op
    case Moving(id, hart) => MovingIff(z, id, hart, gp);
    case Spawning(t) => SpawningIff(z, t, gp);
    case SpawningOwned(t, pid) => SpawningOwnedIff(z, t, pid, gp);
    case OnHart(hop) => HartSaved(z, hop, gp);
    case Sleeping(_, _, _) | KernelSleeping(_, _) => SleepSaved(z, op, gp);
    case _ => CalmSaved(z, op, gp);
  }

  lemma CalmSaved(z: Real, op: Op, gp: nat)
    requires SysInv(z.y) && Saved(z.y.sched, z.ctx, z.pending, gp) && RealEnabled(z, op)
    requires op.Waking? || op.Delivering? || op.Donating? || op.Sending? || op.Receiving? || op.Purging?
    ensures var r := RealStep(z, op, gp).0; Saved(r.y.sched, r.ctx, r.pending, gp)
  {
    CalmSound(z.y, z.ctx, z.pending, op, gp);
  }

  lemma HartSaved(z: Real, op: HartOp, gp: nat)
    requires SysInv(z.y) && Saved(z.y.sched, z.ctx, z.pending, gp) && RealEnabled(z, OnHart(op))
    ensures var r := RealStep(z, OnHart(op), gp).0; Saved(r.y.sched, r.ctx, r.pending, gp)
  {
    HartSound(z.y, z.ctx, z.pending, op, gp);
  }

  lemma SleepSaved(z: Real, op: Op, gp: nat)
    requires SysInv(z.y) && Saved(z.y.sched, z.ctx, z.pending, gp) && RealEnabled(z, op)
    requires (op.Sleeping? || op.KernelSleeping?)
    ensures var r := RealStep(z, op, gp).0; Saved(r.y.sched, r.ctx, r.pending, gp)
  {
    if op.Sleeping? {
      UserCallIs(z.y, op.h, op.frame, op.regs);
      UserBlockSound(z.y.sched, z.ctx, z.pending, op.h, op.frame, op.regs, gp);
    } else {
      KernelCallIs(z.y, op.h, op.regs);
      ParkSound(z.y.sched, z.ctx, z.pending, op.h, op.regs, gp);
    }
  }

  // ----- All runs -----

  /** A step of the system, or the store and load of a hart. */
  datatype RealOp = Do(op: Op) | Complete(h: nat)

  ghost predicate CanDo(z: Real, op: RealOp)
    requires SysInv(z.y)
  {
    match op
    case Do(o) => RealEnabled(z, o)
    case Complete(h) => h < |z.pending| && z.pending[h].Some? && z.pending[h].value.prev < |z.ctx|
  }

  function After(z: Real, op: RealOp, gp: nat): (r: Real)
    requires SysInv(z.y) && CanDo(z, op)
  {
    match op
    case Do(o) => RealStep(z, o, gp).0
    case Complete(h) => Completed(z, h)
  }

  lemma AfterInv(z: Real, op: RealOp, gp: nat)
    requires SysInv(z.y) && CanDo(z, op)
    ensures SysInv(After(z, op, gp).y)
  {
    if op.Do? { StepKeeps(z.y, op.op, gp); }
  }

  ghost predicate RealLegal(z: Real, ops: seq<RealOp>, gp: nat)
    requires SysInv(z.y)
    decreases |ops|
  {
    ops != [] ==> CanDo(z, ops[0]) && (AfterInv(z, ops[0], gp); RealLegal(After(z, ops[0], gp), ops[1..], gp))
  }

  function RealRun(z: Real, ops: seq<RealOp>, gp: nat): (r: Real)
    requires SysInv(z.y) && RealLegal(z, ops, gp)
    decreases |ops|
  {
    if ops == [] then z
    else
      AfterInv(z, ops[0], gp);
      RealRun(After(z, ops[0], gp), ops[1..], gp)
  }

  lemma RealOne(z: Real, op: RealOp, rest: seq<RealOp>, gp: nat)
    requires SysInv(z.y) && CanDo(z, op) && SysInv(After(z, op, gp).y) && RealLegal(After(z, op, gp), rest, gp)
    ensures RealLegal(z, [op] + rest, gp) && RealRun(z, [op] + rest, gp) == RealRun(After(z, op, gp), rest, gp)
  {
    assert ([op] + rest)[0] == op && ([op] + rest)[1..] == rest;
  }

  lemma RealThree(z: Real, a: RealOp, z1: Real, b: RealOp, z2: Real, c: RealOp, z3: Real, gp: nat)
    requires SysInv(z.y) && SysInv(z1.y) && SysInv(z2.y) && SysInv(z3.y)
    requires CanDo(z, a) && z1 == After(z, a, gp) && CanDo(z1, b) && z2 == After(z1, b, gp)
    requires CanDo(z2, c) && z3 == After(z2, c, gp)
    ensures RealLegal(z, [a] + ([b] + ([c] + [])), gp) && RealRun(z, [a] + ([b] + ([c] + [])), gp) == z3
  {
    RealOne(z2, c, [], gp);
    RealOne(z1, b, [c] + [], gp);
    RealOne(z, a, [b] + ([c] + []), gp);
  }

  /** Every state of the run is sound. */
  ghost predicate AllSound(z: Real, ops: seq<RealOp>, gp: nat)
    requires SysInv(z.y) && RealLegal(z, ops, gp)
    decreases |ops|
  {
    Sound(z, gp) && (ops != [] ==> (AfterInv(z, ops[0], gp); AllSound(After(z, ops[0], gp), ops[1..], gp)))
  }

  /** No step of the run displaces a thread whose store is outstanding. */
  ghost predicate NoneDisplaces(z: Real, ops: seq<RealOp>, gp: nat)
    requires SysInv(z.y) && RealLegal(z, ops, gp)
    decreases |ops|
  {
    ops != [] ==>
      && !(ops[0].Do? && Displaces(z, ops[0].op))
      && (AfterInv(z, ops[0], gp); NoneDisplaces(After(z, ops[0], gp), ops[1..], gp))
  }

  /**
    Over every interleaving of all harts with late stores: all states are sound exactly when no step moves a
    kernel thread to another hart, or puts one into a slot, while a store for it is outstanding. In a sound
    state every load is of the latest save, by `LoadsSound`.
  */
  lemma {:induction false} RunSoundIff(z: Real, ops: seq<RealOp>, gp: nat)
    requires Sound(z, gp) && RealLegal(z, ops, gp)
    ensures AllSound(z, ops, gp) <==> NoneDisplaces(z, ops, gp)
    decreases |ops|
  {
    if ops != [] {
      AfterInv(z, ops[0], gp);
      var next := After(z, ops[0], gp);
      if ops[0].Do? { StepSoundIff(z, ops[0].op, gp); } else { CompleteSound(z, ops[0].h, gp); }
      if Sound(next, gp) { RunSoundIff(next, ops[1..], gp); }
    }
  }

  /** What the hart loads when it completes a switch is the latest save of the thread it goes to. */
  ghost predicate SwitchLatest(z: Real, h: nat, gp: nat)
    requires h < |z.pending| && z.pending[h].Some? && z.pending[h].value.prev < |z.ctx|
  {
    var s, next := z.y.sched, z.pending[h].value.next;
    && next < |z.ctx| == |s.threads| == |s.latest| && h < |s.idle|
    && (next != s.idle[h] ==> UpToDate(Loaded(z, h), s.latest[next], gp))
  }

  /** What a tick that switches loads, the thread's frame or the stored context expanded, is its latest save. */
  ghost predicate TickLatest(s: Sched, ctx: seq<Context>, h: nat, frame: seq<nat>, gp: nat)
    requires Inv(s) && h < MAX_HARTS && |frame| == FRAME_WORDS
  {
    var (r, o) := Tick(s, h, frame, gp);
    o.Switched? ==>
      && o.next < |ctx| == |s.threads| == |r.latest| && h < |s.idle|
      && (o.next != s.idle[h] ==> ExpandsLatest(s.threads[o.next], ctx[o.next], r.latest[o.next], gp))
  }

  predicate ExpandsLatest(t: Thread, c: Context, l: Latest, gp: nat) {
    if t.frameValid then UpToDate(ByFrame(t.frame), l, gp) else |c.s| == 12 && UpToDate(ByFrame(Expand(c, gp)), l, gp)
  }

  ghost predicate LoadsLatest(z: Real, op: RealOp, gp: nat)
    requires SysInv(z.y) && CanDo(z, op)
  {
    match op
    case Complete(h) => SwitchLatest(z, h, gp)
    case Do(OnHart(Ticking(h, frame))) => TickLatest(z.y.sched, z.ctx, h, frame, gp)
    case _ => true
  }

  lemma TickLoads(s: Sched, ctx: seq<Context>, pending: seq<Option<Switch>>, h: nat, frame: seq<nat>, gp: nat)
    requires Inv(s) && Saved(s, ctx, pending, gp)
    requires h < MAX_HARTS && HartFree(pending, h) && |frame| == FRAME_WORDS
    ensures TickLatest(s, ctx, h, frame, gp)
  {
    TickSound(s, ctx, pending, h, frame, gp);
    TickInv(s, h, frame, gp);
  }

  lemma LoadsSound(z: Real, op: RealOp, gp: nat)
    requires Sound(z, gp) && CanDo(z, op)
    ensures LoadsLatest(z, op, gp)
  {
    match op
    case Complete(h) => CompleteSound(z, h, gp);
    case Do(OnHart(Ticking(h, frame))) => TickLoads(z.y.sched, z.ctx, z.pending, h, frame, gp);
    case _ =>
  }

  ghost predicate AllLatest(z: Real, ops: seq<RealOp>, gp: nat)
    requires SysInv(z.y) && RealLegal(z, ops, gp)
    decreases |ops|
  {
    ops != [] ==>
      LoadsLatest(z, ops[0], gp) && (AfterInv(z, ops[0], gp); AllLatest(After(z, ops[0], gp), ops[1..], gp))
  }

  /** Without displacement every switch of the run, cooperative or by a tick, loads the latest save. */
  lemma {:induction false} RunLoadsLatest(z: Real, ops: seq<RealOp>, gp: nat)
    requires Sound(z, gp) && RealLegal(z, ops, gp) && NoneDisplaces(z, ops, gp)
    ensures AllLatest(z, ops, gp)
    decreases |ops|
  {
    if ops != [] {
      AfterInv(z, ops[0], gp);
      LoadsSound(z, ops[0], gp);
      if ops[0].Do? { StepSoundIff(z, ops[0].op, gp); } else { CompleteSound(z, ops[0].h, gp); }
      RunLoadsLatest(After(z, ops[0], gp), ops[1..], gp);
    }
  }

  /** The system after `init`, with what is stored in agreement. */
  function RealBoot(frame: seq<nat>, ctx: Context): (z: Real)
    requires |frame| == FRAME_WORDS && |ctx.s| == 12
  {
    Real(Boot(frame, ctx), seq(MAX_HARTS, h => ctx), seq(MAX_HARTS, h => None))
  }

  lemma RealBootSound(frame: seq<nat>, ctx: Context, gp: nat)
    requires |frame| == FRAME_WORDS && |ctx.s| == 12
    ensures Sound(RealBoot(frame, ctx), gp)
  {
    BootInv(frame, ctx);
  }
}
