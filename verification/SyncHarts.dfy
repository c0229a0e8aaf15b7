/**
  The blocking `Mutex` on any number of harts: every atomic access to the lock word and to the queue of waiters
  is a step of its own, and masked interrupts only keep the other threads of the same hart away. `lock` tries
  again after it has registered; when that succeeds it takes the last registration back, whosever it is.
*/
module SyncHarts {
  import opened Common

  /**
    Where a thread is. In `lock`: `Trying` before the first swap, `Joining` after it failed, `Again` registered
    and before the second swap, `Leaving` after that succeeded, `Parking` after it failed, `Asleep` in
    `block_current`, `Woken` made ready again. `Holding` owns the mutex; `Freed` is in `unlock`, after the store.
  */
  datatype Pc = Out | Trying | Joining | Again | Leaving | Parking | Asleep | Woken | Holding | Freed

  datatype Thread = Thread(pc: Pc, woken: bool, hart: nat)

  datatype State = State(threads: seq<Thread>, locked: bool, waiters: seq<nat>)

  // ----- Steps -----

  /** Interrupts are off. */
  predicate Masked(p: Pc) {
    p in {Joining, Again, Leaving, Freed}
  }

  /** Thread `t` can take its next step. */
  ghost predicate Enabled(s: State, t: nat) {
    && t < |s.threads| && s.threads[t].pc != Asleep
    && forall u :: 0 <= u < |s.threads| && u != t && s.threads[u].hart == s.threads[t].hart ==> !Masked(s.threads[u].pc)
  }

  function Go(s: State, t: nat, p: Pc): (r: State)
    requires t < |s.threads|
  {
    s.(threads := s.threads[t := s.threads[t].(pc := p)])
  }

  /** `sched::wake` */
  function Wake(s: State, w: nat): (r: State) {
    if w >= |s.threads| then s
    else
      var x := s.threads[w];
      s.(threads := s.threads[w := x.(pc := if x.pc == Asleep then Woken else x.pc, woken := true)])
  }

  /** A wake-up is consumed. */
  function Consume(s: State, t: nat): (r: State)
    requires t < |s.threads|
  {
    s.(threads := s.threads[t := s.threads[t].(pc := Trying, woken := false)])
  }

  /** `pop_back` */
  function Popped(l: seq<nat>): (r: seq<nat>) {
    if l == [] then [] else l[..|l| - 1]
  }

  /** `pop_front` and the wake-up in `unlock`. */
  function HandOn(s: State): (r: State) {
    if s.waiters == [] then s else Wake(s.(waiters := s.waiters[1..]), s.waiters[0])
  }

  /** The next step of thread `t`. */
  function Step(s: State, t: nat): (r: State)
    requires t < |s.threads| && s.threads[t].pc != Asleep
  {
    match s.threads[t].pc
    case Out => Go(s, t, Trying)
    case Trying => if s.locked then Go(s, t, Joining) else Go(s, t, Holding).(locked := true)
    case Joining => Go(s, t, Again).(waiters := s.waiters + [t])
    case Again => if s.locked then Go(s, t, Parking) else Go(s, t, Leaving).(locked := true)
    case Leaving => Go(s, t, Holding).(waiters := Popped(s.waiters))
    case Parking => if s.threads[t].woken then Consume(s, t) else Go(s, t, Asleep)
    case Woken => Consume(s, t)
    case Holding => Go(s, t, Freed).(locked := false)
    case Freed => HandOn(Go(s, t, Out))
  }

  ghost predicate Next(s: State, t: nat, r: State) {
    Enabled(s, t) && r == Step(s, t)
  }

  ghost predicate IsRun(states: seq<State>, ts: seq<nat>) {
    |states| == |ts| + 1 && forall i :: 0 <= i < |ts| ==> Next(states[i], ts[i], states[i + 1])
  }

  // ----- Mutual exclusion -----

  predicate Owns(s: State, t: nat) {
    t < |s.threads| && s.threads[t].pc in {Leaving, Holding}
  }

  /** At most one thread owns the mutex, and the lock word is set exactly while one does. */
  ghost predicate Exclusive(s: State) {
    && (forall t: nat, u: nat :: Owns(s, t) && Owns(s, u) ==> t == u)
    && (s.locked <==> exists t: nat :: Owns(s, t))
  }

  lemma ExclusiveStep(s: State, t: nat)
    requires Exclusive(s) && Enabled(s, t)
    ensures Exclusive(Step(s, t))
  {
    var r := Step(s, t);
    assert forall u: nat :: u != t ==> (Owns(r, u) <==> Owns(s, u));
    assert Owns(s, t) ==> s.locked;
    if o: nat :| Owns(s, o) {
      if o != t { assert Owns(r, o); } else if s.threads[t].pc == Leaving { assert Owns(r, t); }
    } else if r.locked {
      assert Owns(r, t);
    }
  }

  /** However the harts interleave, and whatever happens to the queue. */
  lemma {:induction false} RunExclusive(states: seq<State>, ts: seq<nat>, n: nat)
    requires IsRun(states, ts) && n < |states| && Exclusive(states[0])
    ensures Exclusive(states[n])
    decreases n
  {
    if n > 0 {
      RunExclusive(states, ts, n - 1);
      assert Next(states[n - 1], ts[n - 1], states[n]);
      ExclusiveStep(states[n - 1], ts[n - 1]);
    }
  }

  // ----- The waiters -----

  /** Thread `t` has registered and has not been woken since. */
  predicate Belongs(s: State, t: nat) {
    t < |s.threads| && s.threads[t].pc in {Again, Leaving, Parking, Asleep} && !s.threads[t].woken
  }

  /** The queue holds exactly the threads that belong into it, each once. */
  ghost predicate Right(s: State) {
    NoDup(s.waiters) && forall t: nat :: t in s.waiters <==> Belongs(s, t)
  }

  /** The `woken` flag is up only from a wake-up until its thread has consumed it. */
  ghost predicate FlagsOk(s: State) {
    forall t :: 0 <= t < |s.threads| ==>
      && (s.threads[t].woken ==> s.threads[t].pc in {Again, Leaving, Parking, Woken})
      && (s.threads[t].pc == Woken ==> s.threads[t].woken)
  }

  /** Thread `t` will try to take the mutex, or wake somebody who does. */
  predicate Coming(s: State, t: nat) {
    && t < |s.threads|
    && (s.threads[t].pc in {Trying, Joining, Again, Woken, Freed} || (s.threads[t].pc == Parking && s.threads[t].woken))
  }

  ghost predicate NoLostWakeup(s: State) {
    !s.locked && s.waiters != [] ==> exists t: nat :: Coming(s, t)
  }

  ghost predicate Inv(s: State) {
    var exclusive, right, flags, wakeups := Exclusive(s), Right(s), FlagsOk(s), NoLostWakeup(s);
    exclusive && right && flags && wakeups
  }

  /** The registration that `t` takes back, if it is about to, is its own. */
  predicate Clean(s: State, t: nat) {
    t < |s.threads| && (s.threads[t].pc == Leaving ==> s.waiters != [] && s.waiters[|s.waiters| - 1] == t)
  }

  /** A step that changes nobody but `t` and leaves the queue alone. */
  lemma QuietRight(s: State, r: State, t: nat)
    requires Right(s) && t < |s.threads| == |r.threads| && r.waiters == s.waiters
    requires forall u :: 0 <= u < |s.threads| && u != t ==> r.threads[u] == s.threads[u]
    requires Belongs(r, t) <==> Belongs(s, t)
    ensures Right(r)
  {
  }

  lemma JoinRight(s: State, t: nat)
    requires Right(s) && FlagsOk(s) && t < |s.threads| && s.threads[t].pc == Joining
    ensures Right(Step(s, t))
  {
    NoDupJoin(s.waiters, [t]);
  }

  lemma PopRightIff(s: State, t: nat)
    requires Right(s) && FlagsOk(s) && t < |s.threads| && s.threads[t].pc == Leaving
    ensures Right(Step(s, t)) && FlagsOk(Step(s, t)) <==> Clean(s, t)
  {
    var r, l := Step(s, t), s.waiters;
    if l != [] {
      var last := l[|l| - 1];
      assert l == r.waiters + [last];
      assert last in l && Belongs(s, last);
      if last == t {
        assert forall u: nat :: u in r.waiters <==> u in l && u != t;
      } else {
        assert last !in r.waiters && Belongs(r, last);
      }
    } else {
      assert !Belongs(s, t);
      assert r.threads[t].woken;
    }
  }

  lemma HandOnRight(s: State)
    requires Right(s) && FlagsOk(s)
    ensures Right(HandOn(s)) && FlagsOk(HandOn(s))
  {
    var r, l := HandOn(s), s.waiters;
    if l != [] {
      assert l == [l[0]] + l[1..];
      assert l[0] in l && Belongs(s, l[0]);
      assert forall u: nat :: u in r.waiters <==> u in l && u != l[0];
      assert forall u: nat :: Belongs(r, u) <==> Belongs(s, u) && u != l[0];
    }
  }

  lemma StepRightIff(s: State, t: nat)
    requires Right(s) && FlagsOk(s) && Enabled(s, t)
    ensures Right(Step(s, t)) && FlagsOk(Step(s, t)) <==> Clean(s, t)
  {
    var p := s.threads[t].pc;
    if p == Joining {
      JoinRight(s, t);
    } else if p == Leaving {
      PopRightIff(s, t);
    } else if p == Freed {
      QuietRight(s, Go(s, t, Out), t);
      HandOnRight(Go(s, t, Out));
    } else {
      QuietRight(s, Step(s, t), t);
    }
  }

  /** Whoever is woken is coming, unless it owns the mutex already. */
  lemma HandOnComing(s: State)
    requires Right(s) && Exclusive(s)
    ensures NoLostWakeup(HandOn(s))
  {
    var r, l := HandOn(s), s.waiters;
    if l != [] {
      var w := l[0];
      assert w in l && Belongs(s, w);
      if s.threads[w].pc == Leaving { assert Owns(s, w); } else { assert Coming(r, w); }
    }
  }

  lemma StepComing(s: State, t: nat)
    requires Right(s) && Exclusive(s) && NoLostWakeup(s) && Enabled(s, t)
    ensures NoLostWakeup(Step(s, t))
  {
    var r, p := Step(s, t), s.threads[t].pc;
    if p == Freed {
      QuietRight(s, Go(s, t, Out), t);
      ExclusiveGo(s, t);
      HandOnComing(Go(s, t, Out));
    } else if p == Parking {
      if c: nat :| Coming(s, c) { assert Coming(r, c); }
    } else if p == Leaving {
      assert Owns(s, t);
    } else {
      assert r.locked || Coming(r, t);
    }
  }

  lemma ExclusiveGo(s: State, t: nat)
    requires Exclusive(s) && t < |s.threads| && s.threads[t].pc == Freed
    ensures Exclusive(Go(s, t, Out))
  {
    var r := Go(s, t, Out);
    assert forall u: nat :: Owns(r, u) <==> Owns(s, u);
  }

  /** A step keeps the invariant exactly when it does not take back somebody else's registration. */
  lemma StepInvIff(s: State, t: nat)
    requires Inv(s) && Enabled(s, t)
    ensures Inv(Step(s, t)) <==> Clean(s, t)
  {
    ExclusiveStep(s, t);
    StepRightIff(s, t);
    StepComing(s, t);
  }

  lemma {:induction false} RunInv(states: seq<State>, ts: seq<nat>, n: nat)
    requires IsRun(states, ts) && Inv(states[0]) && n < |states|
    requires forall i :: 0 <= i < |ts| ==> Clean(states[i], ts[i])
    ensures Inv(states[n])
    decreases n
  {
    if n > 0 {
      RunInv(states, ts, n - 1);
      assert Next(states[n - 1], ts[n - 1], states[n]);
      StepInvIff(states[n - 1], ts[n - 1]);
    }
  }

  /**
    Over every interleaving: the queue is right, no flag is stale and no wake-up is lost in all states exactly
    when every registration that is taken back is that of the thread that takes it back.
  */
  lemma RunInvIff(states: seq<State>, ts: seq<nat>)
    requires IsRun(states, ts) && Inv(states[0])
    ensures (forall n :: 0 <= n < |states| ==> Inv(states[n])) <==>
            (forall i :: 0 <= i < |ts| ==> Clean(states[i], ts[i]))
  {
    if forall i :: 0 <= i < |ts| ==> Clean(states[i], ts[i]) {
      forall n | 0 <= n < |states| ensures Inv(states[n]) { RunInv(states, ts, n); }
    }
    if forall n :: 0 <= n < |states| ==> Inv(states[n]) {
      forall i | 0 <= i < |ts| ensures Clean(states[i], ts[i]) {
        assert Inv(states[i]) && Inv(states[i + 1]) && Next(states[i], ts[i], states[i + 1]);
        StepInvIff(states[i], ts[i]);
      }
    }
  }

  /** A new mutex, and threads that have nothing to do with it. */
  lemma StartInv(harts: seq<nat>)
    ensures Inv(State(seq(|harts|, i requires 0 <= i < |harts| => Thread(Out, false, harts[i])), false, []))
  {
  }

  // ----- One hart -----

  /** On one hart only one thread has interrupts off, and the mutex stays locked meanwhile. */
  ghost predicate Alone(s: State) {
    && (forall t :: 0 <= t < |s.threads| ==> s.threads[t].hart == s.threads[0].hart)
    && (forall t, u ::
          0 <= t < |s.threads| && 0 <= u < |s.threads| && Masked(s.threads[t].pc) && Masked(s.threads[u].pc) ==> t == u)
    && (forall t :: 0 <= t < |s.threads| ==>
          && s.threads[t].pc != Leaving
          && (s.threads[t].pc in {Joining, Again} ==> s.locked))
  }

  lemma AloneStep(s: State, t: nat)
    requires Alone(s) && Enabled(s, t)
    ensures Alone(Step(s, t)) && Clean(s, t)
  {
    var r := Step(s, t);
    forall u | 0 <= u < |s.threads| && u != t ensures r.threads[u].pc == s.threads[u].pc || r.threads[u].pc == Woken
    {
    }
    assert forall u :: 0 <= u < |s.threads| && u != t ==> !Masked(s.threads[u].pc);
  }

  /** On one hart the second swap never succeeds, so that the invariant holds in every run. */
  lemma {:induction false} OneHartRun(states: seq<State>, ts: seq<nat>, n: nat)
    requires IsRun(states, ts) && Inv(states[0]) && Alone(states[0]) && n < |states|
    ensures Inv(states[n]) && Alone(states[n])
    decreases n
  {
    if n > 0 {
      OneHartRun(states, ts, n - 1);
      assert Next(states[n - 1], ts[n - 1], states[n]);
      AloneStep(states[n - 1], ts[n - 1]);
      StepInvIff(states[n - 1], ts[n - 1]);
    }
  }

  // ----- A lost wake-up on two harts -----

  /** Thread `t` sleeps, and nobody knows. */
  predicate Forgotten(s: State, t: nat) {
    t < |s.threads| && s.threads[t].pc == Asleep && t !in s.waiters
  }

  /** Nothing that happens to the mutex wakes it ever again. */
  lemma {:induction false} StaysForgotten(states: seq<State>, ts: seq<nat>, n: nat, t: nat)
    requires IsRun(states, ts) && n < |states| && Forgotten(states[0], t)
    ensures Forgotten(states[n], t)
    decreases n
  {
    if n > 0 {
      StaysForgotten(states, ts, n - 1, t);
      assert Next(states[n - 1], ts[n - 1], states[n]);
      StepForgotten(states[n - 1], ts[n - 1], t);
    }
  }

  lemma StepForgotten(s: State, u: nat, t: nat)
    requires Forgotten(s, t) && Enabled(s, u)
    ensures Forgotten(Step(s, u), t)
  {
    var r := Step(s, u);
    if s.waiters != [] {
      assert s.waiters[0] in s.waiters;
      assert forall x :: x in s.waiters[1..] ==> x in s.waiters;
      assert forall x :: x in Popped(s.waiters) ==> x in s.waiters;
    }
  }

  function Three(a: Pc, b: Pc, c: Pc, woken: bool, locked: bool, waiters: seq<nat>): (s: State) {
    State([Thread(a, false, 1), Thread(b, woken, 0), Thread(c, false, 1)], locked, waiters)
  }

  /** A run goes on. */
  lemma Then(states: seq<State>, ts: seq<nat>, t: nat, r: State) returns (states': seq<State>, ts': seq<nat>)
    requires IsRun(states, ts) && Next(states[|ts|], t, r)
    ensures IsRun(states', ts') && states'[0] == states[0] && states'[|ts'|] == r
  {
    states', ts' := states + [r], ts + [t];
    forall i | 0 <= i < |ts'| ensures Next(states'[i], ts'[i], states'[i + 1]) {
      if i < |ts| { assert Next(states[i], ts[i], states[i + 1]); }
    }
  }

  /** Thread 0 takes the mutex and thread 1 registers. */
  lemma OneRegisters() returns (states: seq<State>, ts: seq<nat>)
    ensures IsRun(states, ts) && states[0] == Three(Out, Out, Out, false, false, [])
    ensures states[|ts|] == Three(Holding, Again, Out, false, true, [1])
  {
    states, ts := [Three(Out, Out, Out, false, false, [])], [];
    states, ts := Then(states, ts, 0, Three(Trying, Out, Out, false, false, []));
    states, ts := Then(states, ts, 0, Three(Holding, Out, Out, false, true, []));
    states, ts := Then(states, ts, 1, Three(Holding, Trying, Out, false, true, []));
    states, ts := Then(states, ts, 1, Three(Holding, Joining, Out, false, true, []));
    states, ts := Then(states, ts, 1, Three(Holding, Again, Out, false, true, [1]));
  }

  /** After it thread 2 registers and sleeps. */
  lemma OtherSleeps() returns (states: seq<State>, ts: seq<nat>)
    ensures IsRun(states, ts) && states[0] == Three(Out, Out, Out, false, false, [])
    ensures states[|ts|] == Three(Holding, Again, Asleep, false, true, [1, 2])
  {
    states, ts := OneRegisters();
    states, ts := Then(states, ts, 2, Three(Holding, Again, Trying, false, true, [1]));
    states, ts := Then(states, ts, 2, Three(Holding, Again, Joining, false, true, [1]));
    states, ts := Then(states, ts, 2, Three(Holding, Again, Again, false, true, [1, 2]));
    states, ts := Then(states, ts, 2, Three(Holding, Again, Parking, false, true, [1, 2]));
    states, ts := Then(states, ts, 2, Three(Holding, Again, Asleep, false, true, [1, 2]));
  }

  /**
    Threads 0 and 2 run on one hart, thread 1 on another. 1 registers, then 2 registers and sleeps; 0 frees the
    mutex, 1 gets it at its second attempt and takes back the registration of 2. When all is over the mutex is
    free and nobody is coming, but 2 sleeps and stays forgotten.
  */
  lemma WaiterForgotten() returns (states: seq<State>, ts: seq<nat>)
    ensures IsRun(states, ts) && Inv(states[0]) && states[0] == Three(Out, Out, Out, false, false, [])
    ensures var s := states[|ts|];
            && !s.locked && s.waiters == [] && Forgotten(s, 2)
            && forall t: nat :: !Coming(s, t) && !Owns(s, t)
  {
    states, ts := OtherSleeps();
    states, ts := Then(states, ts, 0, Three(Freed, Again, Asleep, false, false, [1, 2]));
    states, ts := Then(states, ts, 1, Three(Freed, Leaving, Asleep, false, true, [1, 2]));
    states, ts := Then(states, ts, 1, Three(Freed, Holding, Asleep, false, true, [1]));
    states, ts := Then(states, ts, 0, Three(Out, Holding, Asleep, true, true, []));
    states, ts := Then(states, ts, 1, Three(Out, Freed, Asleep, true, false, []));
    states, ts := Then(states, ts, 1, Three(Out, Out, Asleep, true, false, []));
  }
}
