/**
  Who runs after a hart has given up its thread by itself, and in which order. All ready threads are acceptable then, so
  that it is the first of the best queue; with yields alone the threads of the best level take turns.
*/
module SchedTurns {
  import opened Common
  import opened ReadyQueues
  import opened SchedModel
  import opened SchedPick
  import opened SchedSteps
  import opened SchedWake
  import opened SchedRounds

  /** Level `m` is the best of hart `h` that has a thread, or there is none and `m` is the number of levels. */
  predicate BestQueue(ready: ReadyTable, h: nat, m: nat) {
    && Shaped(ready) && h < MAX_HARTS && m <= PRIO_LEVELS && (forall l :: 0 <= l < m ==> ready[h][l] == [])
    && (m < PRIO_LEVELS ==> ready[h][m] != [])
  }

  /** Hart `h`, with queues `ready`, takes the first of its best queue, or its idle thread; its slice is new. */
  ghost predicate TakesFirst(ready: ReadyTable, r: Sched, h: nat) {
    exists m: nat :: TakesFrom(ready, r, h, m)
  }

  predicate TakesFrom(ready: ReadyTable, r: Sched, h: nat, m: nat) {
    && BestQueue(ready, h, m) && h < |r.idle| && Used(r, h) == 0
    && if m < PRIO_LEVELS
       then On(r, h) == ready[h][m][0] && r.ready == Put(ready, h, m, ready[h][m][1..])
       else On(r, h) == r.idle[h] && r.ready == ready
  }

  /** Whoever is ready can be started by a hart that gives up its thread. */
  lemma ReadyAccepted(s: Sched, hole: int, id: nat)
    requires InvBut(s, hole) && id < |s.threads| && s.threads[id].state == Ready
    ensures Pickable(s.threads[id], true)
  {
    if !IsIdle(s.threads, s.idle, id) { assert Fresh(s.threads[id], s.latest[id]); }
  }

  /** The pick on a hart whose thread has been taken off. */
  lemma PickFirst(s: Sched, hole: int, h: nat) returns (m: nat)
    requires InvBut(s, hole) && h < MAX_HARTS
    ensures QueuedExist(s) && BestQueue(s.ready, h, m)
    ensures m < PRIO_LEVELS ==> Pick(s, h, true, 0) == (TakeOut(s, h, m, 0), s.ready[h][m][0])
    ensures m == PRIO_LEVELS ==>
              Pick(s, h, true, 0) == (s, if s.threads[s.current[h]].state == Running then s.current[h] else s.idle[h])
  {
    var k;
    m, k := PickShape(s, h, true, 0);
    QueuedAreThreads(s);
    forall l | 0 <= l < m ensures s.ready[h][l] == [] {
      if s.ready[h][l] != [] { LevelAccepted(s, hole, h, l); }
    }
    if m < PRIO_LEVELS && k > 0 { LevelAccepted(s, hole, h, m); }
  }

  lemma LevelAccepted(s: Sched, hole: int, h: nat, l: nat)
    requires InvBut(s, hole) && QueuedExist(s) && h < MAX_HARTS && l < PRIO_LEVELS && s.ready[h][l] != []
    ensures var id := s.ready[h][l][0];
            && id < |s.threads| && s.threads[id].hart == h && Eff(s.threads[id], s.donations) == l
            && Pickable(s.threads[id], true)
  {
    QueuedAreThreads(s);
    var id := s.ready[h][l][0];
    assert PlaceOf(s.threads[id], s.donations) == At(h, l);
    ReadyAccepted(s, hole, id);
  }

  /** No ready thread of the hart is more urgent than the one it runs. */
  ghost predicate NoneMoreUrgent(s: Sched, h: nat) {
    && On(s, h) < |s.threads|
    && forall id: nat :: id < |s.threads| && s.threads[id].hart == h && s.threads[id].state == Ready ==>
         Eff(s.threads[id], s.donations) >= Eff(s.threads[On(s, h)], s.donations)
  }

  lemma FirstIsBest(ready: ReadyTable, r: Sched, h: nat, m: nat)
    requires Inv(r) && TakesFrom(ready, r, h, m)
    requires m < PRIO_LEVELS && On(r, h) < |r.threads| ==> Eff(r.threads[On(r, h)], r.donations) == m
    ensures NoneMoreUrgent(r, h)
  {
    forall id: nat | id < |r.threads| && r.threads[id].hart == h && r.threads[id].state == Ready
      ensures Eff(r.threads[id], r.donations) >= Eff(r.threads[On(r, h)], r.donations)
    {
      QueuedExactly(r, id, h, Eff(r.threads[id], r.donations));
    }
  }

  lemma SwitchFirst(s: Sched, h: nat)
    requires h < MAX_HARTS && InvBut(s, h) && s.threads[s.current[h]].state != Running
    ensures TakesFirst(s.ready, SwitchAway(s, h).0, h) && NoneMoreUrgent(SwitchAway(s, h).0, h)
  {
    TicksInv(s, h, h, 0);
    SwitchInv(s, h, 0);
    var s0, r := s.(ticks := s.ticks[h := 0]), SwitchAway(s, h).0;
    var m := PickFirst(s0, h, h);
    if m < PRIO_LEVELS {
      assert RotateOut(s.ready[h][m], 0) == s.ready[h][m][1..];
      LevelAccepted(s0, h, h, m);
    }
    assert TakesFrom(s.ready, r, h, m);
    FirstIsBest(s.ready, r, h, m);
  }

  /** A thread that yields goes to the end of its queue, and the first of the best queue runs: perhaps itself. */
  lemma YieldTurns(s: Sched, h: nat, regs: Context)
    requires Inv(s) && h < MAX_HARTS && !s.threads[s.current[h]].user && |regs.s| == 12
    ensures Shaped(s.ready) && Eff(s.threads[s.current[h]], s.donations) < PRIO_LEVELS
    ensures TakesFirst(Push(s.ready, At(h, Eff(s.threads[s.current[h]], s.donations)), s.current[h]),
              Yield(s, h, regs).0, h)
    ensures NoneMoreUrgent(Yield(s, h, regs).0, h)
  {
    var cur := s.current[h];
    var t := s.threads[cur].(ctx := regs, frameValid := false, ctxValid := true, state := Ready);
    QueueInv(s, -1, h, cur, t, FromCtx(regs));
    SwitchFirst(Queue(s, cur, t, FromCtx(regs)), h);
  }

  /** A thread that blocks leaves the hart to the first of the best queue. */
  lemma BlockTurns(s: Sched, h: nat, regs: Context)
    requires Inv(s) && h < MAX_HARTS && !s.threads[s.current[h]].user && s.current[h] != s.idle[h] && |regs.s| == 12
    requires s.threads[s.current[h]].ipcWake == NoWake && !s.threads[s.current[h]].woken
    ensures TakesFirst(s.ready, BlockCurrent(s, h, regs).0, h) && NoneMoreUrgent(BlockCurrent(s, h, regs).0, h)
  {
    var cur := s.current[h];
    SetInv(s, -1, h, cur, Parked(s.threads[cur], regs), FromCtx(regs));
    SwitchFirst(SetTo(s, cur, Parked(s.threads[cur], regs), FromCtx(regs)), h);
  }

  /** A user thread that blocks from its trap does the same. */
  lemma TrapTurns(s: Sched, h: nat, frame: seq<nat>, regs: Context)
    requires Inv(s) && CanBlock(s, h, frame, regs) && s.threads[s.current[h]].ipcWake == NoWake
    ensures TakesFirst(s.ready, BlockUser(s, h, frame, regs).0, h)
    ensures NoneMoreUrgent(BlockUser(s, h, frame, regs).0, h)
  {
    var cur := s.current[h];
    SleepInv(s, h, frame, regs);
    SwitchFirst(SetTo(s, cur, Asleep(s.threads[cur], frame, regs), FromFrame(frame)), h);
  }

  /** So does one that exits; its slot will be the last of the free ones to be used again. */
  lemma ExitTurns(s: Sched, h: nat, regs: Context)
    requires Inv(s) && h < MAX_HARTS && s.current[h] != s.idle[h] && |regs.s| == 12
    ensures TakesFirst(s.ready, Exit(s, h, regs).0, h) && NoneMoreUrgent(Exit(s, h, regs).0, h)
    ensures Exit(s, h, regs).0.freeSlots == s.freeSlots + [s.current[h]]
  {
    ExitLeaves(s, h, regs);
    SwitchFirst(Left(s, h, regs), h);
  }

  /** An idle hart stays idle exactly when nothing is queued for it; else it takes the first of the best queue. */
  lemma IdleTurns(s: Sched, h: nat, regs: Context)
    requires Inv(s) && h < MAX_HARTS && s.current[h] == s.idle[h] && |regs.s| == 12
    ensures var (r, o) := IdleRound(s, h, regs);
            && TakesFirst(s.ready, r, h)
            && (o == Stay <==>
                 forall id: nat :: id < |s.threads| && s.threads[id].hart == h ==> s.threads[id].state != Ready)
  {
    TicksInv(s, -1, h, 0);
    var s0, r := s.(ticks := s.ticks[h := 0]), IdleRound(s, h, regs).0;
    var m := PickFirst(s0, -1, h);
    if m < PRIO_LEVELS {
      assert RotateOut(s.ready[h][m], 0) == s.ready[h][m][1..];
      QueuedAreThreads(s);
      var id := s.ready[h][m][0];
      assert PlaceOf(s.threads[id], s.donations) == At(h, m);
    } else {
      forall id: nat | id < |s.threads| && s.threads[id].hart == h ensures s.threads[id].state != Ready {
        assert Holds(s.ready[h][Eff(s.threads[id], s.donations)], Places(s.threads, s.donations),
            At(h, Eff(s.threads[id], s.donations)));
      }
    }
    assert TakesFrom(s.ready, r, h, m);
  }

  // ----- Turns -----

  /** `w` is queued at level `l`, behind `k` others, and better levels are empty. */
  ghost predicate Behind(ready: ReadyTable, h: nat, l: nat, w: nat, k: nat) {
    && Shaped(ready) && h < MAX_HARTS && l < PRIO_LEVELS && w in ready[h][l] && k == Rank(ready[h][l], w)
    && forall j :: 0 <= j < l ==> ready[h][j] == []
  }

  lemma PushBehind(ready: ReadyTable, h: nat, l: nat, w: nat, k: nat, e: nat, cur: nat)
    requires Behind(ready, h, l, w, k) && l <= e < PRIO_LEVELS
    ensures Behind(Push(ready, At(h, e), cur), h, l, w, k)
  {
    RankJoin(ready[h][l], cur, w);
  }

  lemma TakeBehind(ready: ReadyTable, r: Sched, h: nat, m: nat, l: nat, w: nat, k: nat)
    requires Behind(ready, h, l, w, k) && TakesFrom(ready, r, h, m)
    ensures m == l && On(r, h) in ready[h][l] && if k == 0 then On(r, h) == w else Behind(r.ready, h, l, w, k - 1)
  {
    if k > 0 { RankDrop(ready[h][l], 1, w); }
  }

  /** So it stands while hart `h` runs nothing better. */
  ghost predicate Queued(s: Sched, h: nat, l: nat, w: nat, k: nat) {
    Behind(s.ready, h, l, w, k) && On(s, h) < |s.threads| && l <= Eff(s.threads[On(s, h)], s.donations)
  }

  /** The levels of the threads are as before. */
  lemma SameLevel(s: Sched, r: Sched, h: nat, id: nat)
    requires Local(s, r, h) && id < |s.threads|
    ensures id < |r.threads| && Eff(r.threads[id], r.donations) == Eff(s.threads[id], s.donations)
  {
  }

  lemma TakenLevel(s: Sched, h: nat, l: nat, cur: nat, e: nat, id: nat)
    requires Inv(s) && h < MAX_HARTS && l < PRIO_LEVELS && e == Eff(s.threads[s.current[h]], s.donations)
    requires cur == s.current[h] && Shaped(s.ready) && id in Push(s.ready, At(h, e), cur)[h][l] && l <= e
    ensures id < |s.threads| && l <= Eff(s.threads[id], s.donations)
  {
    if id != cur { QueuedExactly(s, id, h, l); }
  }

  /** Every yield of the thread that hart `h` runs brings a thread of the best level one place forward. */
  lemma YieldAdvances(s: Sched, h: nat, regs: Context, l: nat, w: nat, k: nat)
    requires Inv(s) && h < MAX_HARTS && !s.threads[s.current[h]].user && |regs.s| == 12
    requires Queued(s, h, l, w, k)
    ensures var r := Yield(s, h, regs).0;
            if k == 0 then On(r, h) == w else Queued(r, h, l, w, k - 1)
  {
    var cur, e, r := s.current[h], Eff(s.threads[s.current[h]], s.donations), Yield(s, h, regs).0;
    YieldInv(s, h, regs, 0);
    YieldTurns(s, h, regs);
    var ready := Push(s.ready, At(h, e), cur);
    var m: nat :| TakesFrom(ready, r, h, m);
    PushBehind(s.ready, h, l, w, k, e, cur);
    TakeBehind(ready, r, h, m, l, w, k);
    TakenLevel(s, h, l, cur, e, On(r, h));
    SameLevel(s, r, h, On(r, h));
  }

  /** Hart `h` runs kernel threads that yield one after the other, with these registers. */
  ghost predicate Yields(states: seq<Sched>, regs: seq<Context>, h: nat) {
    && |states| == |regs| + 1 && h < MAX_HARTS && Inv(states[0])
    && forall i :: 0 <= i < |regs| ==> Yielded(states[i], states[i + 1], regs[i], h)
  }

  ghost predicate Yielded(s: Sched, r: Sched, regs: Context, h: nat) {
    Inv(s) && h < MAX_HARTS && !s.threads[s.current[h]].user && |regs.s| == 12 && r == Yield(s, h, regs).0
  }

  lemma YieldsTail(states: seq<Sched>, regs: seq<Context>, h: nat)
    requires Yields(states, regs, h) && |regs| > 1
    ensures Yields(states[1..], regs[1..], h)
  {
    assert Yielded(states[1], states[1 + 1], regs[1], h);
    forall i | 0 <= i < |regs[1..]| ensures Yielded(states[1..][i], states[1..][i + 1], regs[1..][i], h) {
      assert Yielded(states[i + 1], states[i + 1 + 1], regs[i + 1], h);
    }
  }

  /** With yields alone a thread of the best level that stands behind `k` others runs after `k + 1` of them. */
  lemma {:induction false} TakesItsTurn(states: seq<Sched>, regs: seq<Context>, h: nat, l: nat, w: nat, k: nat)
    requires Yields(states, regs, h) && Queued(states[0], h, l, w, k) && |regs| == k + 1
    ensures On(states[k + 1], h) == w
    decreases k
  {
    assert Yielded(states[0], states[1], regs[0], h);
    YieldAdvances(states[0], h, regs[0], l, w, k);
    if k > 0 {
      YieldsTail(states, regs, h);
      TakesItsTurn(states[1..], regs[1..], h, l, w, k - 1);
    }
  }

  // ----- Wake-ups, moves and new threads -----

  /** A wake-up is good for one block: the thread that ran because of it blocks the next time. */
  lemma WakesOnce(s: Sched, h: nat, regs: Context)
    requires Inv(s) && h < MAX_HARTS && !s.threads[s.current[h]].user && s.current[h] != s.idle[h] && |regs.s| == 12
    requires s.threads[s.current[h]].ipcWake == NoWake
    ensures var a := AfterBlock(s, h);
            && Inv(a) && a.current == s.current && !a.threads[s.current[h]].user
            && BlockCurrent(a, h, regs).1.Switched?
            && a == s.(threads := s.threads[s.current[h] := s.threads[s.current[h]].(woken := false)])
  {
    AfterBlockInv(s, h);
    assert s.latest[s.current[h] := s.latest[s.current[h]]] == s.latest;
  }

  /** What `take_ipc_msg` returns is what the mailbox held; then it is empty, and nothing else has changed. */
  lemma TakeEmpties(s: Sched, h: nat)
    requires Sized(s) && h < MAX_HARTS
    ensures var (r, m) := TakeMsg(s, h);
            && m == s.threads[s.current[h]].ipcMsg && r.threads[s.current[h]].ipcMsg == None
            && TakeMsg(r, h).1 == None
            && r == s.(threads := s.threads[s.current[h] := s.threads[s.current[h]].(ipcMsg := None)])
  {
    assert s.latest[s.current[h] := s.latest[s.current[h]]] == s.latest;
  }

  /** The hart a thread is moved to: the one asked for, or the last one. */
  predicate HartAsked(h: nat, hart: nat) {
    h < MAX_HARTS && h <= hart && (h < hart ==> h + 1 == MAX_HARTS)
  }

  /**
    A moved thread belongs to the hart asked for and is last in its queue there if it is ready; in all other queues, and
    for all other threads, nothing changes.
  */
  lemma AffinityMoves(s: Sched, id: nat, hart: nat)
    requires Inv(s) && id < |s.threads| && s.threads[id].state in {Ready, Blocked} && !IsIdle(s.threads, s.idle, id)
    ensures var r := SetAffinity(s, id, hart);
            && |r.threads| == |s.threads| && HartAsked(r.threads[id].hart, hart)
            && r.threads[id] == s.threads[id].(hart := r.threads[id].hart)
            && (forall x :: 0 <= x < |s.threads| && x != id ==> r.threads[x] == s.threads[x])
            && (s.threads[id].state == Ready && r.threads[id].hart != s.threads[id].hart ==> LastReady(r, id))
            && (s.threads[id].state == Blocked || r.threads[id].hart == s.threads[id].hart ==> r.ready == s.ready)
  {
    SetAffinityInv(s, id, hart);
  }

  /** A new thread is last in its queue. */
  lemma SpawnedLast(s: Sched, t: Thread)
    requires Inv(s) && HasRoom(s) && ThreadOk(t) && t.state == Ready && Fresh(t, Start(t.ctx, t.frame))
    ensures LastReady(Spawn(s, t), NewSlot(s))
  {
    SpawnInv(s, t);
  }

  /** The table of threads grows only if no thread has exited; else the slot that was freed first is used again. */
  lemma SlotReused(s: Sched, t: Thread)
    requires Inv(s) && HasRoom(s) && ThreadOk(t) && t.state == Ready && Fresh(t, Start(t.ctx, t.frame))
    ensures var r := Spawn(s, t);
            && (forall id :: 0 <= id < |s.threads| && s.threads[id].state != Exited ==>
                  id < |r.threads| && r.threads[id] == s.threads[id])
            && if exists id :: 0 <= id < |s.threads| && s.threads[id].state == Exited
               then |r.threads| == |s.threads| && s.freeSlots != [] && s.freeSlots[0] < |r.threads|
                    && r.threads[s.freeSlots[0]] == t && r.freeSlots == s.freeSlots[1..]
               else r.threads == s.threads + [t]
  {
    SpawnInv(s, t);
    assert s.freeSlots != [] ==> s.freeSlots[0] in s.freeSlots;
  }
}
