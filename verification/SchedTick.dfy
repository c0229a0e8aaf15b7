/** `on_tick`: preemption by the timer. */
module SchedTick {
  import opened ReadyQueues
  import opened SchedModel
  import opened SchedPick
  import opened SchedSteps

  /** Some thread other than `cur` is queued at a level from `a` to `b` and can be started by a tick. */
  predicate AnyIn(ts: seq<Thread>, qs: seq<seq<nat>>, cur: nat, a: nat, b: nat)
    requires b <= |qs| && forall l, i :: 0 <= l < |qs| && 0 <= i < |qs[l]| ==> qs[l][i] < |ts|
  {
    exists l, i :: a <= l < b && 0 <= i < |qs[l]| && qs[l][i] != cur && Pickable(ts[qs[l][i]], false)
  }

  predicate AnyOther(s: Sched, h: nat, a: nat, b: nat)
    requires Sized(s) && QueuedExist(s) && h < MAX_HARTS && b <= PRIO_LEVELS
  {
    AnyIn(s.threads, s.ready[h], s.current[h], a, b)
  }

  function Preempted(t: Thread, frame: seq<nat>): (r: Thread) {
    t.(frame := frame, frameValid := true, ctxValid := false, state := Ready)
  }

  function Expanded(t: Thread, gp: nat): (r: Thread)
    requires |t.ctx.s| == 12
  {
    t.(frame := Expand(t.ctx, gp), frameValid := true, ctxValid := false, woken := false)
  }

  /** What a tick resumes a thread from: its frame, or its context expanded into one. */
  function TickResume(t: Thread, gp: nat): (r: Resume)
    requires |t.ctx.s| == 12
  {
    ByFrame(if t.frameValid then t.frame else Expand(t.ctx, gp))
  }

  /** The preempted thread has its frame to continue from, and the next one is resumed from what it had. */
  predicate TickSwitches(s: Sched, r: Sched, h: nat, o: Outcome, gp: nat) {
    o.Switched? ==>
      && h < |s.current| && s.current[h] < |r.threads| && !r.threads[s.current[h]].ctxValid
      && o.next < |s.threads| && o.next != s.current[h] && s.threads[o.next].state == Ready
      && |s.threads[o.next].ctx.s| == 12 && o.resume == TickResume(s.threads[o.next], gp)
  }

  /** The current thread of `h` is preempted with frame `frame`. */
  function Preempt(s: Sched, h: nat, frame: seq<nat>): (r: Sched)
    requires Sized(s) && Shaped(s.ready) && h < MAX_HARTS && |frame| == FRAME_WORDS
  {
    Queue(s.(ticks := s.ticks[h := 0]), s.current[h], Preempted(s.threads[s.current[h]], frame), FromFrame(frame))
  }

  lemma PreemptInv(s: Sched, h: nat, frame: seq<nat>)
    requires Inv(s) && h < MAX_HARTS && |frame| == FRAME_WORDS
    ensures InvBut(Preempt(s, h, frame), h) && QueuedExist(Preempt(s, h, frame))
  {
    TicksInv(s, -1, h, 0);
    QueueInv(s.(ticks := s.ticks[h := 0]), -1, h, s.current[h], Preempted(s.threads[s.current[h]], frame),
      FromFrame(frame));
    QueuedAreThreads(Preempt(s, h, frame));
  }

  /** The second half of `on_tick`, once something else can run. */
  function Rotate(s: Sched, h: nat, frame: seq<nat>, gp: nat): (r: (Sched, Outcome))
    requires Inv(s) && h < MAX_HARTS && |frame| == FRAME_WORDS
  {
    PreemptInv(s, h, frame);
    var cur := s.current[h];
    var (r, next) := Pick(Preempt(s, h, frame), h, false, 0);
    if next == cur then (r, Stay)
    else
      var r' := r.(current := r.current[h := next]);
      if r.threads[next].frameValid then (r', Switched(next, ByFrame(r.threads[next].frame)))
      else (r'.(threads := r'.threads[next := Expanded(r'.threads[next], gp)]),
        Switched(next, ByFrame(Expand(r.threads[next].ctx, gp))))
  }

  /** `on_tick` */
  function Tick(s: Sched, h: nat, frame: seq<nat>, gp: nat): (r: (Sched, Outcome))
    requires Inv(s) && h < MAX_HARTS && |frame| == FRAME_WORDS
  {
    QueuedAreThreads(s);
    var n, p := s.ticks[h] + 1, Eff(s.threads[s.current[h]], s.donations);
    if n < SLICE_TICKS && !AnyOther(s, h, 0, p) then (s.(ticks := s.ticks[h := n]), Stay)
    else if !AnyOther(s, h, 0, PRIO_LEVELS) then (s.(ticks := s.ticks[h := 0]), Stay)
    else Rotate(s, h, frame, gp)
  }

  /** `id` waits on hart `h` and a tick could start it. */
  predicate Waiting(s: Sched, h: nat, id: nat) {
    id < |s.threads| && s.threads[id].hart == h && Pickable(s.threads[id], false)
  }

  lemma AnyOtherIff(s: Sched, h: nat, a: nat, b: nat)
    requires Inv(s) && QueuedExist(s) && h < MAX_HARTS && b <= PRIO_LEVELS
    ensures AnyOther(s, h, a, b) <==> exists id: nat :: Waiting(s, h, id) && a <= Eff(s.threads[id], s.donations) < b
  {
    if id: nat :| Waiting(s, h, id) && a <= Eff(s.threads[id], s.donations) < b { WaitingQueued(s, h, id); }
    if AnyOther(s, h, a, b) {
      QueuedAreThreads(s);
      var l, i :| a <= l < b && 0 <= i < |s.ready[h][l]| &&
        s.ready[h][l][i] != s.current[h] && Pickable(s.threads[s.ready[h][l][i]], false);
      assert Waiting(s, h, s.ready[h][l][i]);
    }
  }

  lemma WaitingQueued(s: Sched, h: nat, id: nat)
    requires Inv(s) && h < MAX_HARTS && Waiting(s, h, id)
    ensures Shaped(s.ready) && id != s.current[h]
    ensures var l := Eff(s.threads[id], s.donations); l < PRIO_LEVELS && id in s.ready[h][l]
  {
    var l := Eff(s.threads[id], s.donations);
    assert Holds(s.ready[h][l], Places(s.threads, s.donations), At(h, l));
  }

  /** What the rotation picks: the first thread at the best level, and the preempted one only if it is alone there. */
  lemma RotatePicks(s: Sched, h: nat, frame: seq<nat>) returns (m: nat, k: nat)
    requires Inv(s) && h < MAX_HARTS && |frame| == FRAME_WORDS
    ensures var cur, p := s.current[h], Preempt(s, h, frame);
            && QueuedExist(p) && m <= Eff(s.threads[cur], s.donations) < PRIO_LEVELS && k < |p.ready[h][m]|
            && NonePickable(p, h, false, 0, m) && Pickable(p.threads[p.ready[h][m][k]], false)
            && Pick(p, h, false, 0) == (TakeOut(p, h, m, k), p.ready[h][m][k])
            && (p.ready[h][m][k] == cur ==> forall id: nat :: Waiting(s, h, id) ==> Eff(s.threads[id], s.donations) > m)
  {
    var cur, p := s.current[h], Preempt(s, h, frame);
    PreemptInv(s, h, frame);
    var e := Eff(s.threads[cur], s.donations);
    assert Pickable(p.threads[cur], false) && Eff(p.threads[cur], p.donations) == e && p.threads[cur].hart == h;
    m, k := PickShape(p, h, false, 0);
    if p.ready[h][m][k] == cur {
      QueuedAreThreads(p);
      AloneAtLevel(s, h, frame, m, k);
    }
  }

  lemma LastPick(ts: seq<Thread>, q: seq<nat>, cur: nat, k: nat)
    requires cur !in q && forall i :: 0 <= i < |q + [cur]| ==> (q + [cur])[i] < |ts|
    requires k == FirstPick(ts, q + [cur], false) < |q + [cur]| && (q + [cur])[k] == cur
    ensures forall id :: id in q ==> id < |ts| && !Pickable(ts[id], false)
  {
    assert k == |q| by { assert forall i :: 0 <= i < |q| ==> (q + [cur])[i] in q; }
    forall id | id in q ensures id < |ts| && !Pickable(ts[id], false) {
      var i :| 0 <= i < |q| && q[i] == id;
      assert (q + [cur])[i] == id;
    }
  }

  lemma AloneAtLevel(s: Sched, h: nat, frame: seq<nat>, m: nat, k: nat)
    requires Inv(s) && h < MAX_HARTS && |frame| == FRAME_WORDS && m < PRIO_LEVELS
    requires var p := Preempt(s, h, frame);
             && QueuedExist(p) && NonePickable(p, h, false, 0, m) && k < |p.ready[h][m]|
             && p.ready[h][m][k] == s.current[h] && k == FirstPick(p.threads, p.ready[h][m], false)
             && Eff(s.threads[s.current[h]], s.donations) == m
    ensures forall id: nat :: Waiting(s, h, id) ==> Eff(s.threads[id], s.donations) > m
  {
    var cur, p, q := s.current[h], Preempt(s, h, frame), s.ready[h][m];
    assert Holds(q, Places(s.threads, s.donations), At(h, m));
    assert p.ready[h][m] == q + [cur];
    LastPick(p.threads, q, cur, k);
    forall id: nat | Waiting(s, h, id) ensures Eff(s.threads[id], s.donations) > m {
      assert id != cur && p.threads[id] == s.threads[id];
      assert id in q <==> Eff(s.threads[id], s.donations) == m;
    }
  }

  /** Nothing that a tick could start is strictly better than what hart `h` runs. */
  ghost predicate NothingBetter(s: Sched, h: nat) {
    h < |s.current| && s.current[h] < |s.threads| &&
    forall id: nat :: Waiting(s, h, id) ==> Eff(s.threads[id], s.donations) >= Eff(s.threads[s.current[h]], s.donations)
  }

  /** The rotation's state, before a possible context expansion. */
  lemma RotateDispatch(s: Sched, h: nat, frame: seq<nat>, m: nat, k: nat)
    requires Inv(s) && h < MAX_HARTS && |frame| == FRAME_WORDS && m < PRIO_LEVELS
    requires var p := Preempt(s, h, frame);
             && QueuedExist(p) && k < |p.ready[h][m]| && NonePickable(p, h, false, 0, m)
             && Pickable(p.threads[p.ready[h][m][k]], false)
    ensures var p := Preempt(s, h, frame);
            var next := p.ready[h][m][k];
            var r := TakeOut(p, h, m, k).(current := p.current[h := next]);
            && Inv(r) && NothingBetter(r, h) && Eff(r.threads[next], r.donations) == m && Local(s, r, h)
            && r.threads[next] == p.threads[next].(state := Running)
            && (next != s.idle[h] ==> Fresh(p.threads[next], r.latest[next]))
  {
    var p := Preempt(s, h, frame);
    PreemptInv(s, h, frame);
    Dispatch(p, h, m, k);
    var next := p.ready[h][m][k];
    var r := TakeOut(p, h, m, k).(current := p.current[h := next]);
    forall id: nat | Waiting(r, h, id) ensures Eff(r.threads[id], r.donations) >= m {
      assert r.threads[id] == p.threads[id];
    }
  }

  lemma ExpandInv(s: Sched, h: nat, gp: nat)
    requires Inv(s) && h < MAX_HARTS && NothingBetter(s, h)
    ensures var t := s.threads[s.current[h]];
            var r := s.(threads := s.threads[s.current[h] := Expanded(t, gp)]);
            && Inv(r) && NothingBetter(r, h) && Eff(r.threads[s.current[h]], r.donations) == Eff(t, s.donations)
            && Local(s, r, h)
  {
    var cur := s.current[h];
    SetInv(s, -1, -1, cur, Expanded(s.threads[cur], gp), s.latest[cur]);
    assert s.latest[cur := s.latest[cur]] == s.latest;
  }

  lemma RotateInv(s: Sched, h: nat, frame: seq<nat>, gp: nat)
    requires Inv(s) && h < MAX_HARTS && |frame| == FRAME_WORDS
    ensures var (r, o) := Rotate(s, h, frame, gp);
            var cur := s.current[h];
            && Inv(r) && Resumes(r, h, o, gp) && NothingBetter(r, h) && Local(s, r, h) && StaysUp(r, cur)
            && Eff(r.threads[r.current[h]], r.donations) <= Eff(s.threads[cur], s.donations)
            && (o == Stay ==>
                  && r.current[h] == cur
                  && forall id: nat :: Waiting(s, h, id) ==>
                     Eff(s.threads[id], s.donations) > Eff(s.threads[cur], s.donations))
  {
    PreemptInv(s, h, frame);
    var m, k := RotatePicks(s, h, frame);
    var p := Preempt(s, h, frame);
    var next := p.ready[h][m][k];
    RotateDispatch(s, h, frame, m, k);
    var r := TakeOut(p, h, m, k).(current := p.current[h := next]);
    if next == s.current[h] {
      assert r == TakeOut(p, h, m, k);
    } else if !r.threads[next].frameValid {
      ExpandInv(r, h, gp);
    }
  }

  /**
    After every tick nothing that a tick could start is strictly better than the running thread; a tick
    never switches to something strictly worse; and at the end of a slice it switches if something equally
    good could run. What it switches to continues from its latest save.
  */
  lemma TickInv(s: Sched, h: nat, frame: seq<nat>, gp: nat)
    requires Inv(s) && h < MAX_HARTS && |frame| == FRAME_WORDS
    ensures var (r, o) := Tick(s, h, frame, gp);
            var cur, e := s.current[h], Eff(s.threads[s.current[h]], s.donations);
            && Inv(r) && Resumes(r, h, o, gp) && NothingBetter(r, h) && Local(s, r, h) && StaysUp(r, cur)
            && TickSwitches(s, r, h, o, gp)
            && (o.Switched? ==> Eff(r.threads[r.current[h]], r.donations) <= e)
            && (o == Stay ==> r.current[h] == cur)
            && (s.ticks[h] + 1 >= SLICE_TICKS &&
                 (exists id: nat :: Waiting(s, h, id) && Eff(s.threads[id], s.donations) == e)
                ==> o.Switched?)
  {
    QueuedAreThreads(s);
    var e := Eff(s.threads[s.current[h]], s.donations);
    AnyOtherIff(s, h, 0, e);
    AnyOtherIff(s, h, 0, PRIO_LEVELS);
    assert forall id: nat :: Waiting(s, h, id) ==> Eff(s.threads[id], s.donations) < PRIO_LEVELS;
    var n := s.ticks[h] + 1;
    if n < SLICE_TICKS && !AnyOther(s, h, 0, e) {
      TicksInv(s, -1, h, n);
      QuietTick(s, h, n);
    } else if !AnyOther(s, h, 0, PRIO_LEVELS) {
      TicksInv(s, -1, h, 0);
      QuietTick(s, h, 0);
    } else {
      RotateInv(s, h, frame, gp);
      RotateSwitches(s, h, frame, gp);
    }
  }

  lemma RotateSwitches(s: Sched, h: nat, frame: seq<nat>, gp: nat)
    requires Inv(s) && h < MAX_HARTS && |frame| == FRAME_WORDS
    ensures var (r, o) := Rotate(s, h, frame, gp); TickSwitches(s, r, h, o, gp)
  {
    PreemptInv(s, h, frame);
    var p := Preempt(s, h, frame);
    var m, k := RotatePicks(s, h, frame);
    QueuedAreThreads(p);
    assert PlaceOf(p.threads[p.ready[h][m][k]], p.donations) == At(h, m);
  }

  lemma QuietTick(s: Sched, h: nat, n: nat)
    requires Inv(s) && h < MAX_HARTS
    requires forall id: nat :: Waiting(s, h, id) ==>
      Eff(s.threads[id], s.donations) >= Eff(s.threads[s.current[h]], s.donations)
    ensures NothingBetter(s.(ticks := s.ticks[h := n]), h)
  {
    var r := s.(ticks := s.ticks[h := n]);
    forall id: nat | Waiting(r, h, id)
      ensures Eff(r.threads[id], r.donations) >= Eff(r.threads[r.current[h]], r.donations)
    {
      assert Waiting(s, h, id);
    }
  }
}
