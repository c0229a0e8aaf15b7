/**
  Time slices and round robin. Ticks of one hart come between any other steps; a slice ends after `SLICE_TICKS` of
  them, and the threads of the best level take turns.
*/
module SchedRounds {
  import opened Common
  import opened ReadyQueues
  import opened SchedModel
  import opened SchedPick
  import opened SchedTick

  /** A tick of the hart, or a step of something else. */
  datatype Event = Tock(frame: seq<nat>) | Other

  function Tocks(events: seq<Event>): (n: nat) {
    if events == [] then 0 else Tocks(events[..|events| - 1]) + if events[|events| - 1].Tock? then 1 else 0
  }

  /** The thread that hart `h` runs. */
  function On(s: Sched, h: nat): (id: nat) {
    if h < |s.current| then s.current[h] else 0
  }

  /** How many ticks its slice has had. */
  function Used(s: Sched, h: nat): (n: nat) {
    if h < |s.ticks| then s.ticks[h] else 0
  }

  /** A step that is no step of hart `h`: it still runs its thread, and its slice goes on. */
  predicate Elsewhere(s: Sched, r: Sched, h: nat) {
    On(r, h) == On(s, h) && Used(r, h) == Used(s, h)
  }

  ghost predicate Happens(s: Sched, e: Event, r: Sched, h: nat, gp: nat) {
    && Inv(s) && Inv(r) && h < MAX_HARTS
    && match e
       case Tock(frame) => |frame| == FRAME_WORDS && r == Tick(s, h, frame, gp).0
       case Other => Elsewhere(s, r, h)
  }

  ghost predicate Course(states: seq<Sched>, events: seq<Event>, h: nat, gp: nat) {
    && |states| == |events| + 1 && h < MAX_HARTS && Inv(states[0])
    && forall i :: 0 <= i < |events| ==> Happens(states[i], events[i], states[i + 1], h, gp)
  }

  // ----- The end of a slice -----

  /** A thread that a tick could start waits on hart `h`, as urgent as the one it runs. */
  ghost predicate Contested(s: Sched, h: nat) {
    On(s, h) < |s.threads| &&
    exists w: nat :: Waiting(s, h, w) && Eff(s.threads[w], s.donations) <= Eff(s.threads[On(s, h)], s.donations)
  }

  lemma MustSwitch(s: Sched, h: nat, frame: seq<nat>, gp: nat)
    requires Inv(s) && h < MAX_HARTS && |frame| == FRAME_WORDS && Contested(s, h)
    ensures QueuedExist(s) && AnyOther(s, h, 0, PRIO_LEVELS)
    ensures var (r, o) := Rotate(s, h, frame, gp); o.Switched? && On(r, h) != On(s, h)
  {
    var w: nat :|
      Waiting(s, h, w) && Eff(s.threads[w], s.donations) <= Eff(s.threads[s.current[h]], s.donations);
    QueuedAreThreads(s);
    WaitingQueued(s, h, w);
    AnyOtherIff(s, h, 0, PRIO_LEVELS);
    RotateInv(s, h, frame, gp);
    RotateSwitches(s, h, frame, gp);
  }

  /** A tick switches, or is counted. */
  lemma TickCounts(s: Sched, h: nat, frame: seq<nat>, gp: nat)
    requires Inv(s) && h < MAX_HARTS && |frame| == FRAME_WORDS && Contested(s, h)
    ensures var r := Tick(s, h, frame, gp).0;
            || (On(r, h) != On(s, h) && r == Rotate(s, h, frame, gp).0)
            || (Used(r, h) == Used(s, h) + 1 && r == s.(ticks := r.ticks))
  {
    MustSwitch(s, h, frame, gp);
  }

  lemma Bounded(s: Sched, h: nat)
    requires Inv(s) && h < MAX_HARTS
    ensures Used(s, h) < SLICE_TICKS
  {
  }

  /** The three ways a tick can go: it is counted, it ends a slice without a successor, or it rotates. */
  ghost predicate TickWays(s: Sched, r: Sched, h: nat, frame: seq<nat>, gp: nat)
    requires Inv(s) && h < MAX_HARTS && |frame| == FRAME_WORDS
  {
    var n := Used(s, h) + 1;
    || (n < SLICE_TICKS && r == s.(ticks := s.ticks[h := n]))
    || (n == SLICE_TICKS && r == s.(ticks := s.ticks[h := 0]))
    || ((n == SLICE_TICKS || Contested(s, h)) && r == Rotate(s, h, frame, gp).0)
  }

  lemma TickCases(s: Sched, h: nat, frame: seq<nat>, gp: nat)
    requires Inv(s) && h < MAX_HARTS && |frame| == FRAME_WORDS
    ensures TickWays(s, Tick(s, h, frame, gp).0, h, frame, gp)
  {
    Bounded(s, h);
    QueuedAreThreads(s);
    if AnyOther(s, h, 0, Eff(s.threads[s.current[h]], s.donations)) { BetterContests(s, h); }
  }

  /** A tick that does not switch moves the clock of the slice on, a switch starts it anew. */
  predicate Clocked(s: Sched, r: Sched, h: nat) {
    Used(r, h) == if On(r, h) == On(s, h) then (Used(s, h) + 1) % SLICE_TICKS else 0
  }

  lemma QuietClocked(s: Sched, r: Sched, h: nat, n: nat)
    requires h < |s.ticks| && r == s.(ticks := s.ticks[h := n]) && n == (s.ticks[h] + 1) % SLICE_TICKS
    ensures Clocked(s, r, h)
  {
  }

  lemma RotateClocked(s: Sched, r: Sched, h: nat)
    requires Used(r, h) == 0 && (Used(s, h) + 1 == SLICE_TICKS || On(r, h) != On(s, h))
    ensures Clocked(s, r, h)
  {
  }

  /** The clock of a hart: a tick that does not switch counts on, modulo the slice; a switch starts a new slice. */
  lemma TickClock(s: Sched, h: nat, frame: seq<nat>, gp: nat)
    requires Inv(s) && h < MAX_HARTS && |frame| == FRAME_WORDS
    ensures Clocked(s, Tick(s, h, frame, gp).0, h)
  {
    var r, n := Tick(s, h, frame, gp).0, Used(s, h) + 1;
    TickCases(s, h, frame, gp);
    if n < SLICE_TICKS && r == s.(ticks := s.ticks[h := n]) {
      QuietClocked(s, r, h, n);
    } else if n == SLICE_TICKS && r == s.(ticks := s.ticks[h := 0]) {
      QuietClocked(s, r, h, 0);
    } else {
      RotateClock(s, h, frame, gp);
      if Contested(s, h) { MustSwitch(s, h, frame, gp); }
      RotateClocked(s, r, h);
    }
  }

  lemma BetterContests(s: Sched, h: nat)
    requires Inv(s) && QueuedExist(s) && h < MAX_HARTS && AnyOther(s, h, 0, Eff(s.threads[s.current[h]], s.donations))
    ensures Contested(s, h)
  {
    var e := Eff(s.threads[s.current[h]], s.donations);
    AnyOtherIff(s, h, 0, e);
    var w: nat :| Waiting(s, h, w) && 0 <= Eff(s.threads[w], s.donations) < e;
  }

  lemma RotateClock(s: Sched, h: nat, frame: seq<nat>, gp: nat)
    requires Inv(s) && h < MAX_HARTS && |frame| == FRAME_WORDS
    ensures Used(Rotate(s, h, frame, gp).0, h) == 0
  {
    PreemptInv(s, h, frame);
  }

  lemma SliceStep(s: Sched, e: Event, r: Sched, h: nat, gp: nat)
    requires Happens(s, e, r, h, gp) && Contested(s, h) && On(r, h) == On(s, h)
    ensures Used(r, h) == Used(s, h) + if e.Tock? then 1 else 0
  {
    if e.Tock? { TickCounts(s, h, e.frame, gp); }
  }

  lemma TocksNext(events: seq<Event>, n: nat)
    requires 0 < n <= |events|
    ensures Tocks(events[..n]) == Tocks(events[..n - 1]) + if events[n - 1].Tock? then 1 else 0
  {
    assert events[..n][..n - 1] == events[..n - 1];
  }

  lemma {:induction false} SliceGrows(states: seq<Sched>, events: seq<Event>, h: nat, gp: nat, n: nat)
    requires Course(states, events, h, gp) && n <= |events|
    requires forall i :: 0 <= i < n ==> Contested(states[i], h) && On(states[i + 1], h) == On(states[i], h)
    ensures Used(states[0], h) + Tocks(events[..n]) == Used(states[n], h) < SLICE_TICKS
    decreases n
  {
    Bounded(states[0], h);
    if n > 0 {
      SliceGrows(states, events, h, gp, n - 1);
      assert Happens(states[n - 1], events[n - 1], states[n], h, gp);
      TocksNext(events, n);
      SliceStep(states[n - 1], events[n - 1], states[n], h, gp);
      Bounded(states[n], h);
    }
  }

  /**
    However far the slice has gone: as long as another thread could run and is as urgent as the running one, the
    hart switches before it has had `SLICE_TICKS` ticks.
  */
  lemma SliceEnds(states: seq<Sched>, events: seq<Event>, h: nat, gp: nat)
    requires Course(states, events, h, gp) && Tocks(events) >= SLICE_TICKS
    requires forall i :: 0 <= i < |events| ==> Contested(states[i], h)
    ensures exists i :: 0 <= i < |events| && On(states[i + 1], h) != On(states[i], h)
  {
    assert events[..|events|] == events;
    if forall i :: 0 <= i < |events| ==> On(states[i + 1], h) == On(states[i], h) {
      SliceGrows(states, events, h, gp, |events|);
    }
  }

  // ----- Round robin -----

  /** Level `l` is the best on hart `h`: neither the running thread nor one that a tick could start is better. */
  ghost predicate BestLevel(s: Sched, h: nat, l: nat) {
    && On(s, h) < |s.threads| && l <= Eff(s.threads[On(s, h)], s.donations)
    && forall id: nat :: Waiting(s, h, id) ==> l <= Eff(s.threads[id], s.donations)
  }

  /** Thread `w` waits for its turn at the best level, behind `k` others. */
  ghost predicate InLine(s: Sched, h: nat, l: nat, w: nat, k: nat) {
    && Shaped(s.ready) && h < MAX_HARTS && l < PRIO_LEVELS && BestLevel(s, h, l)
    && Waiting(s, h, w) && Eff(s.threads[w], s.donations) == l && w in s.ready[h][l] && k == Rank(s.ready[h][l], w)
  }

  /** Taking out a thread before `w` brings it forward. */
  lemma RankRotates(q: seq<nat>, k: nat, w: nat)
    requires w in q && k < Rank(q, w)
    ensures w in RotateOut(q, k) && Rank(RotateOut(q, k), w) < Rank(q, w)
  {
    RankDrop(q, k + 1, w);
    RankFront(q[k + 1..], q[..k], w);
  }

  /** The queues once the running thread has been put back. */
  lemma BackInLine(s: Sched, h: nat, frame: seq<nat>, l: nat, w: nat, k: nat)
    requires Inv(s) && |frame| == FRAME_WORDS && InLine(s, h, l, w, k)
    ensures var p, cur := Preempt(s, h, frame), s.current[h];
            && Shaped(p.ready) && w in p.ready[h][l] && Rank(p.ready[h][l], w) == k && w != cur
            && (cur in p.ready[h][l] ==> Rank(p.ready[h][l], cur) > k)
            && p.threads[w] == s.threads[w] && p.donations == s.donations
            && (forall id: nat :: Waiting(p, h, id) ==> l <= Eff(p.threads[id], p.donations))
  {
    var p, cur := Preempt(s, h, frame), s.current[h];
    var q := s.ready[h][l];
    PreemptInv(s, h, frame);
    QueuedExactly(s, cur, h, l);
    WaitingQueued(s, h, w);
    RankJoin(q, cur, w);
    assert Eff(p.threads[cur], p.donations) == Eff(s.threads[cur], s.donations);
    if cur in p.ready[h][l] { RankLast(q, cur); }
    forall id: nat | Waiting(p, h, id) ensures l <= Eff(p.threads[id], p.donations) {
      if id != cur { assert Waiting(s, h, id); }
    }
  }

  /** The rotation takes the first of the best level that can be started, which is `w` or stands before it. */
  lemma RotateTakes(s: Sched, h: nat, frame: seq<nat>, l: nat, w: nat, k: nat) returns (j: nat)
    requires Inv(s) && |frame| == FRAME_WORDS && InLine(s, h, l, w, k)
    ensures var p := Preempt(s, h, frame);
            && QueuedExist(p) && j <= k < |p.ready[h][l]| && p.ready[h][l][k] == w && p.ready[h][l][j] != s.current[h]
            && Pick(p, h, false, 0) == (TakeOut(p, h, l, j), p.ready[h][l][j])
  {
    var p, cur := Preempt(s, h, frame), s.current[h];
    PreemptInv(s, h, frame);
    BackInLine(s, h, frame, l, w, k);
    var m;
    m, j := PickShape(p, h, false, 0);
    QueuedAreThreads(p);
    var id := p.ready[h][m][j];
    assert PlaceOf(p.threads[id], p.donations) == At(h, m);
    assert Waiting(p, h, id);
    if j < |p.ready[h][l]| && p.ready[h][l][j] == cur { RankUnique(p.ready[h][l], j, cur); }
  }

  /** What the rotation leaves, when it takes the `j`-th thread of level `l`. */
  ghost predicate Rotated(p: Sched, r: Sched, h: nat, l: nat, j: nat) {
    && Shaped(p.ready) && Shaped(r.ready) && h < MAX_HARTS && l < PRIO_LEVELS && j < |p.ready[h][l]|
    && var id := p.ready[h][l][j];
       && r.ready[h][l] == RotateOut(p.ready[h][l], j) && r.donations == p.donations && |r.threads| == |p.threads|
       && Used(r, h) == 0 && On(r, h) == id < |p.threads|
       && r.threads[id].prio == p.threads[id].prio && r.threads[id].proc == p.threads[id].proc
       && forall x :: 0 <= x < |p.threads| && x != id ==> r.threads[x] == p.threads[x]
  }

  lemma RotateLeaves(s: Sched, h: nat, frame: seq<nat>, gp: nat, l: nat, j: nat)
    requires Inv(s) && h < MAX_HARTS && |frame| == FRAME_WORDS && l < PRIO_LEVELS
    requires var p := Preempt(s, h, frame);
             && QueuedExist(p) && j < |p.ready[h][l]| && p.ready[h][l][j] != s.current[h]
             && Pick(p, h, false, 0) == (TakeOut(p, h, l, j), p.ready[h][l][j])
    ensures Rotated(Preempt(s, h, frame), Rotate(s, h, frame, gp).0, h, l, j)
  {
    PreemptInv(s, h, frame);
  }

  /** Whoever is in line stays there. */
  lemma RotatedInLine(p: Sched, r: Sched, h: nat, l: nat, j: nat, w: nat, k: nat)
    requires Rotated(p, r, h, l, j) && NothingBetter(r, h) && w in p.ready[h][l] && Rank(p.ready[h][l], w) == k && j < k
    requires w < |p.threads| && Waiting(p, h, w) && Eff(p.threads[w], p.donations) == l
    requires p.ready[h][l][j] < |p.threads| && Eff(p.threads[p.ready[h][l][j]], p.donations) == l
    requires p.ready[h][l][j] != w
    ensures InLine(r, h, l, w, Rank(r.ready[h][l], w)) && Rank(r.ready[h][l], w) < k
  {
    RankRotates(p.ready[h][l], j, w);
    assert Eff(r.threads[On(r, h)], r.donations) == l;
  }

  lemma RotateAdvances(s: Sched, h: nat, frame: seq<nat>, gp: nat, l: nat, w: nat, k: nat) returns (k': nat)
    requires Inv(s) && |frame| == FRAME_WORDS && InLine(s, h, l, w, k)
    ensures var r := Rotate(s, h, frame, gp).0;
            On(r, h) == w || (InLine(r, h, l, w, k') && k' < k && Used(r, h) == 0)
  {
    var p, r := Preempt(s, h, frame), Rotate(s, h, frame, gp).0;
    var j := RotateTakes(s, h, frame, l, w, k);
    RotateLeaves(s, h, frame, gp, l, j);
    k' := 0;
    if j < k {
      PreemptInv(s, h, frame);
      QueuedAreThreads(p);
      assert PlaceOf(p.threads[p.ready[h][l][j]], p.donations) == At(h, l);
      BackInLine(s, h, frame, l, w, k);
      RankFirst(p.ready[h][l], j, w);
      RotateInv(s, h, frame, gp);
      RotatedInLine(p, r, h, l, j, w, k);
      k' := Rank(r.ready[h][l], w);
    }
  }

  lemma StillInLine(s: Sched, r: Sched, h: nat, l: nat, w: nat, k: nat)
    requires InLine(s, h, l, w, k) && r == s.(ticks := r.ticks)
    ensures InLine(r, h, l, w, k)
  {
    assert forall id: nat :: Waiting(r, h, id) <==> Waiting(s, h, id);
  }

  /** A tick runs `w`, or brings it forward, or is counted. */
  lemma TickAdvances(s: Sched, h: nat, frame: seq<nat>, gp: nat, l: nat, w: nat, k: nat) returns (k': nat)
    requires Inv(s) && |frame| == FRAME_WORDS && InLine(s, h, l, w, k)
    ensures var r := Tick(s, h, frame, gp).0;
            || On(r, h) == w
            || (InLine(r, h, l, w, k') && k' < k && Used(r, h) == 0)
            || (InLine(r, h, l, w, k') && k' == k && Used(r, h) == Used(s, h) + 1)
  {
    var r := Tick(s, h, frame, gp).0;
    assert Contested(s, h);
    TickCounts(s, h, frame, gp);
    if On(r, h) == On(s, h) {
      StillInLine(s, r, h, l, w, k);
      k' := k;
    } else {
      k' := RotateAdvances(s, h, frame, gp, l, w, k);
    }
  }

  /** Steps of others leave `w` in line, and do not put anybody before it. */
  ghost predicate KeepsLine(s: Sched, r: Sched, h: nat, l: nat, w: nat) {
    forall k: nat :: InLine(s, h, l, w, k) ==> exists k': nat :: k' <= k && InLine(r, h, l, w, k')
  }

  lemma LineStep(s: Sched, e: Event, r: Sched, h: nat, gp: nat, l: nat, w: nat, k: nat) returns (k': nat)
    requires Happens(s, e, r, h, gp) && InLine(s, h, l, w, k) && On(r, h) != w
    requires e.Other? ==> KeepsLine(s, r, h, l, w)
    ensures InLine(r, h, l, w, k')
    ensures (if e.Tock? then 1 else 0) + SLICE_TICKS * k' + Used(s, h) <= SLICE_TICKS * k + Used(r, h)
  {
    Bounded(s, h);
    if e.Tock? {
      k' := TickAdvances(s, h, e.frame, gp, l, w, k);
    } else {
      k' :| k' <= k && InLine(r, h, l, w, k');
    }
  }

  ghost predicate Undisturbed(states: seq<Sched>, events: seq<Event>, h: nat, l: nat, w: nat) {
    |states| == |events| + 1 &&
    forall i :: 0 <= i < |events| && events[i].Other? ==> KeepsLine(states[i], states[i + 1], h, l, w)
  }

  lemma {:induction false} Advances(states: seq<Sched>, events: seq<Event>, h: nat, gp: nat, l: nat, w: nat, k: nat,
          n: nat)
    returns (k': nat)
    requires Course(states, events, h, gp) && Undisturbed(states, events, h, l, w) && n <= |events|
    requires InLine(states[0], h, l, w, k) && forall i :: 0 <= i <= n ==> On(states[i], h) != w
    ensures Inv(states[n]) && InLine(states[n], h, l, w, k')
    ensures Tocks(events[..n]) + SLICE_TICKS * k' + Used(states[0], h) <= SLICE_TICKS * k + Used(states[n], h)
    decreases n
  {
    k' := k;
    if n > 0 {
      var k1 := Advances(states, events, h, gp, l, w, k, n - 1);
      assert Happens(states[n - 1], events[n - 1], states[n], h, gp);
      assert events[n - 1].Other? ==> KeepsLine(states[n - 1], states[n], h, l, w);
      TocksNext(events, n);
      k' := LineStep(states[n - 1], events[n - 1], states[n], h, gp, l, w, k1);
    }
  }

  lemma StillWaits(states: seq<Sched>, events: seq<Event>, h: nat, gp: nat, l: nat, w: nat, k: nat, n: nat)
    requires Course(states, events, h, gp) && Undisturbed(states, events, h, l, w) && n <= |events|
    requires InLine(states[0], h, l, w, k) && forall i :: 0 <= i <= n ==> On(states[i], h) != w
    ensures Tocks(events[..n]) < (k + 1) * SLICE_TICKS
  {
    var k' := Advances(states, events, h, gp, l, w, k, n);
    Bounded(states[n], h);
  }

  /**
    A thread that waits at the best level behind `k` others runs before its hart has had `(k + 1) * SLICE_TICKS`
    ticks, wherever the current slice stands.
  */
  lemma RoundRobin(states: seq<Sched>, events: seq<Event>, h: nat, gp: nat, l: nat, w: nat, k: nat)
    requires Course(states, events, h, gp) && Undisturbed(states, events, h, l, w)
    requires InLine(states[0], h, l, w, k) && Tocks(events) >= (k + 1) * SLICE_TICKS
    ensures exists i :: 0 <= i < |states| && On(states[i], h) == w
  {
    assert events[..|events|] == events;
    if forall i :: 0 <= i < |states| ==> On(states[i], h) != w { StillWaits(states, events, h, gp, l, w, k, |events|); }
  }

  /** Of all threads queued at the best level each one runs before as many slices have passed. */
  lemma EachRuns(states: seq<Sched>, events: seq<Event>, h: nat, gp: nat, l: nat, w: nat)
    requires Course(states, events, h, gp) && Undisturbed(states, events, h, l, w)
    requires l < PRIO_LEVELS && BestLevel(states[0], h, l)
    requires Waiting(states[0], h, w) && Eff(states[0].threads[w], states[0].donations) == l
    requires Shaped(states[0].ready) && Tocks(events) >= |states[0].ready[h][l]| * SLICE_TICKS
    ensures exists i :: 0 <= i < |states| && On(states[i], h) == w
  {
    WaitingQueued(states[0], h, w);
    RoundRobin(states, events, h, gp, l, w, Rank(states[0].ready[h][l], w));
  }
}
