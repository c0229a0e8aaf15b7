/** `pick_next`: which thread it chooses and what it leaves in the queues. */
module SchedPick {
  import opened ReadyQueues
  import opened SchedModel

  lemma QueuedAreThreads(s: Sched)
    requires Placed(s.threads, s.donations, s.ready)
    ensures QueuedExist(s)
    ensures forall h, l, i :: 0 <= h < MAX_HARTS && 0 <= l < PRIO_LEVELS && 0 <= i < |s.ready[h][l]| ==>
              PlaceOf(s.threads[s.ready[h][l][i]], s.donations) == At(h, l)
  {
    forall h, l, i | 0 <= h < MAX_HARTS && 0 <= l < PRIO_LEVELS && 0 <= i < |s.ready[h][l]|
      ensures s.ready[h][l][i] < |s.threads| && PlaceOf(s.threads[s.ready[h][l][i]], s.donations) == At(h, l)
    {
      assert Holds(s.ready[h][l], Places(s.threads, s.donations), At(h, l));
      assert s.ready[h][l][i] in s.ready[h][l];
    }
  }

  /** The `k`-th thread of a queue is taken out and runs. */
  function TakeOut(s: Sched, h: nat, l: nat, k: nat): (r: Sched)
    requires QueuedExist(s) && h < MAX_HARTS && l < PRIO_LEVELS && k < |s.ready[h][l]|
  {
    var id := s.ready[h][l][k];
    s.(ready := Put(s.ready, h, l, RotateOut(s.ready[h][l], k)),
      threads := s.threads[id := s.threads[id].(state := Running)])
  }

  /** `pick_next` from level `l` on. */
  function Pick(s: Sched, h: nat, needCtx: bool, l: nat): (r: (Sched, nat))
    requires Sized(s) && QueuedExist(s) && h < MAX_HARTS && l <= PRIO_LEVELS
    ensures r.1 < |s.threads| == |r.0.threads| && r.0 == s.(ready := r.0.ready, threads := r.0.threads)
    ensures forall id :: 0 <= id < |s.threads| ==> r.0.threads[id] == s.threads[id].(state := r.0.threads[id].state)
    decreases PRIO_LEVELS - l, s
  {
    if l == PRIO_LEVELS then
      (s, if s.threads[s.current[h]].state != Running then s.idle[h] else s.current[h])
    else
      var k := FirstPick(s.threads, s.ready[h][l], needCtx);
      if k < |s.ready[h][l]| then (TakeOut(s, h, l, k), s.ready[h][l][k]) else Pick(s, h, needCtx, l + 1)
  }

  ghost predicate NonePickable(s: Sched, h: nat, needCtx: bool, a: nat, b: nat) {
    forall id :: 0 <= id < |s.threads| && s.threads[id].hart == h && a <= Eff(s.threads[id], s.donations) < b ==>
      !Pickable(s.threads[id], needCtx)
  }

  /** Either a best thread is taken out, at position `k` of level `m`, or nothing is acceptable (`m` is the end). */
  lemma PickShape(s: Sched, h: nat, needCtx: bool, l: nat) returns (m: nat, k: nat)
    requires Sized(s) && Placed(s.threads, s.donations, s.ready) && h < MAX_HARTS && l <= PRIO_LEVELS
    ensures QueuedExist(s) && l <= m <= PRIO_LEVELS && NonePickable(s, h, needCtx, l, m)
    ensures m < PRIO_LEVELS ==>
              && k < |s.ready[h][m]| && Pick(s, h, needCtx, l) == (TakeOut(s, h, m, k), s.ready[h][m][k])
              && k == FirstPick(s.threads, s.ready[h][m], needCtx)
    ensures m == PRIO_LEVELS ==>
              var stays := s.threads[s.current[h]].state == Running;
              Pick(s, h, needCtx, l) == (s, if stays then s.current[h] else s.idle[h])
    decreases PRIO_LEVELS - l
  {
    QueuedAreThreads(s);
    m, k := l, 0;
    if l < PRIO_LEVELS {
      k := FirstPick(s.threads, s.ready[h][l], needCtx);
      if k == |s.ready[h][l]| {
        assert Pick(s, h, needCtx, l) == Pick(s, h, needCtx, l + 1);
        m, k := PickShape(s, h, needCtx, l + 1);
        NoneJoin(s, h, needCtx, l, m);
      }
    }
  }

  lemma NoneJoin(s: Sched, h: nat, needCtx: bool, l: nat, m: nat)
    requires Sized(s) && Placed(s.threads, s.donations, s.ready) && QueuedExist(s) && h < MAX_HARTS && l < PRIO_LEVELS
    requires FirstPick(s.threads, s.ready[h][l], needCtx) == |s.ready[h][l]| && NonePickable(s, h, needCtx, l + 1, m)
    ensures NonePickable(s, h, needCtx, l, m)
  {
    LevelScanned(s, h, needCtx, l);
  }

  lemma LevelScanned(s: Sched, h: nat, needCtx: bool, l: nat)
    requires Sized(s) && Placed(s.threads, s.donations, s.ready) && QueuedExist(s) && h < MAX_HARTS && l < PRIO_LEVELS
    requires FirstPick(s.threads, s.ready[h][l], needCtx) == |s.ready[h][l]|
    ensures NonePickable(s, h, needCtx, l, l + 1)
  {
    var q := s.ready[h][l];
    assert Holds(q, Places(s.threads, s.donations), At(h, l));
    forall id | 0 <= id < |s.threads| && s.threads[id].hart == h && l <= Eff(s.threads[id], s.donations) < l + 1
      ensures !Pickable(s.threads[id], needCtx)
    {
      if s.threads[id].state == Ready {
        assert id in q;
      }
    }
  }

  lemma DispatchPlaced(s: Sched, h: nat, m: nat, k: nat)
    requires Placed(s.threads, s.donations, s.ready) && QueuedExist(s) && h < MAX_HARTS && m < PRIO_LEVELS
    requires k < |s.ready[h][m]|
    ensures var r := TakeOut(s, h, m, k); Placed(r.threads, r.donations, r.ready)
  {
    QueuedAreThreads(s);
    var id := s.ready[h][m][k];
    var places := Places(s.threads, s.donations);
    assert places[id] == At(h, m);
    assert Holds(s.ready[h][m], places, At(h, m));
    RotateOutFacts(s.ready[h][m], k);
    DropQueues(places, s.ready, id, RotateOut(s.ready[h][m], k));
    PlacesUpdate(s.threads, s.donations, id, s.threads[id].(state := Running));
  }

  /** A queued thread that is taken out and put on its hart completes the state again. */
  lemma Dispatch(s: Sched, h: nat, m: nat, k: nat)
    requires InvBut(s, h) && QueuedExist(s) && h < MAX_HARTS && m < PRIO_LEVELS && k < |s.ready[h][m]|
    ensures var id := s.ready[h][m][k];
            && id < |s.threads| && s.threads[id].state == Ready && s.threads[id].hart == h
            && Eff(s.threads[id], s.donations) == m
            && Inv(TakeOut(s, h, m, k).(current := s.current[h := id]))
  {
    QueuedAreThreads(s);
    DispatchPlaced(s, h, m, k);
    var id := s.ready[h][m][k];
    assert PlaceOf(s.threads[id], s.donations) == At(h, m);
    FreeSame(s.threads, s.freeSlots, id, s.threads[id].(state := Running));
  }

  /** With nothing queued, the idle thread of the hart takes over. */
  lemma FallBack(s: Sched, h: nat)
    requires InvBut(s, h) && h < MAX_HARTS && s.threads[s.idle[h]].state == Running
    ensures Inv(s.(current := s.current[h := s.idle[h]]))
  {
  }

  /** What a cooperative pick does after the current thread of hart `h` has been taken off. */
  lemma PickInv(s: Sched, h: nat)
    requires InvBut(s, h) && h < MAX_HARTS && s.threads[s.current[h]].state != Running
    ensures QueuedExist(s)
    ensures var (r, next) := Pick(s, h, true, 0);
            && next < |s.threads| && r.current == s.current && Inv(r.(current := s.current[h := next]))
            && r.latest == s.latest && r.donations == s.donations && r.idle == s.idle
            && r.threads == s.threads[next := s.threads[next].(state := Running)]
            && s.threads[next].hart == h && (s.threads[next].state == Ready || next == s.idle[h])
  {
    var m, k := PickShape(s, h, true, 0);
    if m < PRIO_LEVELS {
      Dispatch(s, h, m, k);
    } else {
      var i := s.idle[h];
      assert !Pickable(s.threads[i], true) by { assert Eff(s.threads[i], s.donations) < PRIO_LEVELS; }
      FallBack(s, h);
      assert s.threads[i := s.threads[i].(state := Running)] == s.threads;
    }
  }
}
