/**
  Blocking `Mutex` and `Condvar` on one hart: every section that runs with interrupts off is one step.
  Between registering as a waiter and blocking a thread can be overtaken by its own wake-up, which the
  `woken` flag keeps for it. `SyncHarts` has the mutex on several harts.
*/
module Sync {
  import opened Common

  /** The queue a thread waits in. */
  datatype Queue = OnMutex(m: nat) | OnCond(c: nat)

  /**
    Where a thread is. `mutex` is the one it will try to take next: `Retry` is before an attempt,
    `Registered` between joining a queue and blocking, `Woken` made ready but not yet running.
  */
  datatype Pc = Idle | Retry(mutex: nat) | Registered(q: Queue, mutex: nat) | Asleep(q: Queue, mutex: nat)
    | Woken(mutex: nat)

  datatype Thread = Thread(pc: Pc, woken: bool, holds: set<nat>)

  datatype State = State(threads: seq<Thread>, locked: seq<bool>, waiters: seq<seq<nat>>, conds: seq<seq<nat>>)

  // ----- The invariant -----

  ghost predicate Sized(s: State) {
    |s.waiters| == |s.locked|
  }

  predicate Waits(p: Pc, q: Queue) {
    (p.Registered? || p.Asleep?) && p.q == q
  }

  /** Thread `t` belongs into queue `q`: it waits there and has not been woken. */
  predicate Belongs(s: State, t: nat, q: Queue) {
    t < |s.threads| && Waits(s.threads[t].pc, q) && !s.threads[t].woken
  }

  /** Queue `l` holds exactly the threads that belong into it, each once. */
  ghost predicate Right(s: State, l: seq<nat>, q: Queue) {
    NoDup(l) && forall t: nat :: t in l <==> Belongs(s, t, q)
  }

  ghost predicate QueuesRight(s: State) {
    && (forall m :: 0 <= m < |s.waiters| ==> Right(s, s.waiters[m], OnMutex(m)))
    && (forall c :: 0 <= c < |s.conds| ==> Right(s, s.conds[c], OnCond(c)))
  }

  /** The `woken` flag is up only from a wake-up until its thread has consumed it. */
  predicate ThreadOk(s: State, t: Thread) {
    && (match t.pc
        case Idle => !t.woken
        case Retry(m) => !t.woken && m < |s.locked|
        case Registered(q, m) => m < |s.locked| && (q.OnMutex? ==> q.m == m) && (q.OnCond? ==> q.c < |s.conds|)
        case Asleep(q, m) => !t.woken && m < |s.locked| && (q.OnMutex? ==> q.m == m) && (q.OnCond? ==> q.c < |s.conds|)
        case Woken(m) => t.woken && m < |s.locked|)
    && forall m :: m in t.holds ==> m < |s.locked|
  }

  ghost predicate ThreadsOk(s: State) {
    forall t :: 0 <= t < |s.threads| ==> ThreadOk(s, s.threads[t])
  }

  /** A mutex is locked exactly while a thread holds it, and never held by two. */
  ghost predicate Exclusive(s: State) {
    && (forall m: nat, t: nat, u: nat ::
          t < |s.threads| && u < |s.threads| && m in s.threads[t].holds && m in s.threads[u].holds ==> t == u)
    && (forall m: nat :: m < |s.locked| ==> (s.locked[m] <==> Held(s, m)))
  }

  ghost predicate Held(s: State, m: nat) {
    exists t: nat :: t < |s.threads| && m in s.threads[t].holds
  }

  /** Thread `t` is past its wake-up and will try to take `m`. */
  predicate Coming(s: State, t: nat, m: nat) {
    && t < |s.threads|
    && var x := s.threads[t];
       x.pc == Retry(m) || x.pc == Woken(m) || (x.pc.Registered? && x.pc.mutex == m && x.woken)
  }

  ghost predicate SomeoneComing(s: State, m: nat) {
    exists t: nat :: Coming(s, t, m)
  }

  /** A free mutex with waiters will be tried by a thread that has been woken already. */
  ghost predicate NoLostWakeup(s: State) {
    forall m :: 0 <= m < |s.locked| && m < |s.waiters| && !s.locked[m] && s.waiters[m] != [] ==> SomeoneComing(s, m)
  }

  ghost predicate Inv(s: State) {
    var queues, threads, exclusive, wakeups := QueuesRight(s), ThreadsOk(s), Exclusive(s), NoLostWakeup(s);
    Sized(s) && queues && threads && exclusive && wakeups
  }

  // ----- Steps -----

  function Set(s: State, t: nat, x: Thread): (r: State)
    requires t < |s.threads|
  {
    s.(threads := s.threads[t := x])
  }

  /** `sched::wake` */
  function Wake(s: State, t: nat): (r: State)
    requires t < |s.threads|
  {
    var x := s.threads[t];
    Set(s, t, if x.pc.Asleep? then x.(pc := Woken(x.pc.mutex), woken := true) else x.(woken := true))
  }

  /** One round of `Mutex::lock`: take the mutex if it is free, else register as a waiter. */
  function TryLock(s: State, t: nat, m: nat): (r: State)
    requires t < |s.threads| && m < |s.locked| == |s.waiters|
  {
    var x := s.threads[t];
    if !s.locked[m] then Set(s, t, x.(pc := Idle, holds := x.holds + {m})).(locked := s.locked[m := true])
    else Set(s, t, x.(pc := Registered(OnMutex(m), m))).(waiters := s.waiters[m := s.waiters[m] + [t]])
  }

  /** `block_current`: a wake-up that has come already is consumed instead. */
  function Block(s: State, t: nat): (r: State)
    requires t < |s.threads| && s.threads[t].pc.Registered?
  {
    var x := s.threads[t];
    Set(s, t, if x.woken then x.(pc := Retry(x.pc.mutex), woken := false) else x.(pc := Asleep(x.pc.q, x.pc.mutex)))
  }

  /** A thread that was made ready runs again and finishes `block_current`. */
  function Resume(s: State, t: nat): (r: State)
    requires t < |s.threads| && s.threads[t].pc.Woken?
  {
    Set(s, t, s.threads[t].(pc := Retry(s.threads[t].pc.mutex), woken := false))
  }

  /** Freeing a mutex and waking its first waiter, as both `unlock` and `wait` do. */
  function Release(s: State, m: nat): (r: State)
    requires m < |s.locked| == |s.waiters| && (s.waiters[m] != [] ==> s.waiters[m][0] < |s.threads|)
  {
    var s' := s.(locked := s.locked[m := false]);
    if s.waiters[m] == [] then s' else Wake(s'.(waiters := s.waiters[m := s.waiters[m][1..]]), s.waiters[m][0])
  }

  /** `Mutex::unlock` */
  function Unlock(s: State, t: nat, m: nat): (r: State)
    requires t < |s.threads| && m < |s.locked| == |s.waiters| && (s.waiters[m] != [] ==> s.waiters[m][0] < |s.threads|)
  {
    Release(Set(s, t, s.threads[t].(holds := s.threads[t].holds - {m})), m)
  }

  /** The first section of `Condvar::wait`. */
  function Wait(s: State, t: nat, c: nat, m: nat): (r: State)
    requires t < |s.threads| && c < |s.conds| && m < |s.locked| == |s.waiters|
    requires (s.waiters[m] != [] ==> s.waiters[m][0] < |s.threads|)
  {
    var x := s.threads[t].(pc := Registered(OnCond(c), m), holds := s.threads[t].holds - {m});
    Release(Set(s, t, x).(conds := s.conds[c := s.conds[c] + [t]]), m)
  }

  /** `Condvar::notify_one` */
  function NotifyOne(s: State, c: nat): (r: State)
    requires c < |s.conds| && (s.conds[c] != [] ==> s.conds[c][0] < |s.threads|)
  {
    if s.conds[c] == [] then s else Wake(s.(conds := s.conds[c := s.conds[c][1..]]), s.conds[c][0])
  }

  // ----- How the parts of the invariant are kept -----

  /** A queue is still right for threads that belong to it as before. */
  lemma RightSame(s: State, r: State, l: seq<nat>, q: Queue)
    requires Right(s, l, q) && forall t: nat :: Belongs(r, t, q) <==> Belongs(s, t, q)
    ensures Right(r, l, q)
  {
  }

  lemma HeldSame(s: State, r: State)
    requires |r.threads| == |s.threads| && forall t :: 0 <= t < |s.threads| ==> r.threads[t].holds == s.threads[t].holds
    ensures forall m: nat :: Held(s, m) <==> Held(r, m)
  {
    forall m: nat ensures Held(s, m) <==> Held(r, m) {
      if t: nat :| t < |s.threads| && m in s.threads[t].holds { assert m in r.threads[t].holds; }
      if t: nat :| t < |r.threads| && m in r.threads[t].holds { assert m in s.threads[t].holds; }
    }
  }

  lemma ExclusiveSame(s: State, r: State)
    requires Exclusive(s) && r.locked == s.locked
    requires |r.threads| == |s.threads| && forall t :: 0 <= t < |s.threads| ==> r.threads[t].holds == s.threads[t].holds
    ensures Exclusive(r)
  {
    HeldSame(s, r);
  }

  /** Whoever was coming is still coming. */
  lemma ComingSame(s: State, r: State, m: nat)
    requires SomeoneComing(s, m) && forall t: nat :: Coming(s, t, m) ==> Coming(r, t, m)
    ensures SomeoneComing(r, m)
  {
    var t: nat :| Coming(s, t, m);
    assert Coming(r, t, m);
  }

  /** One thread moves on without touching queues or locks. */
  lemma SetInv(s: State, t: nat, x: Thread)
    requires Inv(s) && t < |s.threads| && ThreadOk(s, x) && x.holds == s.threads[t].holds
    requires forall q :: Belongs(Set(s, t, x), t, q) <==> Belongs(s, t, q)
    requires forall m: nat :: Coming(s, t, m) ==> Coming(Set(s, t, x), t, m)
    ensures Inv(Set(s, t, x))
  {
    var r := Set(s, t, x);
    forall m | 0 <= m < |s.waiters| ensures Right(r, r.waiters[m], OnMutex(m)) {
      RightSame(s, r, s.waiters[m], OnMutex(m));
    }
    forall c | 0 <= c < |s.conds| ensures Right(r, r.conds[c], OnCond(c)) { RightSame(s, r, s.conds[c], OnCond(c)); }
    ExclusiveSame(s, r);
    forall m | 0 <= m < |r.locked| && m < |r.waiters| && !r.locked[m] && r.waiters[m] != []
      ensures SomeoneComing(r, m)
    {
      ComingSame(s, r, m);
    }
  }

  /** Everything but the lock of `m`, which is still set although its holder has let go. */
  ghost predicate Loose(s: State, m: nat) {
    var queues, threads, wakeups := QueuesRight(s), ThreadsOk(s), NoLostWakeup(s);
    && Sized(s) && queues && threads && wakeups && m < |s.locked| && s.locked[m] && !Held(s, m)
    && (forall k: nat, t: nat, u: nat ::
          t < |s.threads| && u < |s.threads| && k in s.threads[t].holds && k in s.threads[u].holds ==> t == u)
    && (forall k: nat :: k < |s.locked| && k != m ==> (s.locked[k] <==> Held(s, k)))
  }

  /** The first thread of a queue is woken: it leaves that queue and no other changes. */
  lemma PopRight(s: State, r: State, w: nat, l: seq<nat>, q: Queue)
    requires w < |s.threads| && l != [] && l[0] == w && Right(s, l, q) && r.threads == Wake(s, w).threads
    ensures Right(r, l[1..], q)
    ensures forall l', q' :: q' != q && Right(s, l', q') ==> Right(r, l', q')
  {
    assert w in l;
    assert forall t: nat :: t in l <==> t == w || t in l[1..];
    assert forall t: nat :: Belongs(r, t, q) <==> Belongs(s, t, q) && t != w;
    forall l', q' | q' != q && Right(s, l', q') ensures Right(r, l', q') {
      assert forall t: nat :: Belongs(r, t, q') <==> Belongs(s, t, q');
      RightSame(s, r, l', q');
    }
  }

  lemma WokenOk(s: State, r: State, w: nat)
    requires ThreadsOk(s) && w < |s.threads| && (s.threads[w].pc.Registered? || s.threads[w].pc.Asleep?)
    requires r.threads == Wake(s, w).threads && |r.locked| == |s.locked| && |r.conds| == |s.conds|
    ensures ThreadsOk(r) && Coming(r, w, s.threads[w].pc.mutex)
    ensures forall t: nat, m: nat :: Coming(s, t, m) ==> Coming(r, t, m)
  {
  }

  lemma ReleaseInv(s: State, m: nat)
    requires Loose(s, m)
    ensures s.waiters[m] != [] ==> s.waiters[m][0] < |s.threads|
    ensures Inv(Release(s, m))
  {
    assert Right(s, s.waiters[m], OnMutex(m));
    if s.waiters[m] != [] {
      var w := s.waiters[m][0];
      assert w in s.waiters[m] && Belongs(s, w, OnMutex(m));
      ReleaseWakes(s, m, w);
    } else {
      ReleaseQuiet(s, m);
    }
  }

  lemma ReleaseQuiet(s: State, m: nat)
    requires Loose(s, m) && s.waiters[m] == []
    ensures Inv(Release(s, m))
  {
    var r := Release(s, m);
    HeldSame(s, r);
    forall k | 0 <= k < |s.waiters| ensures Right(r, r.waiters[k], OnMutex(k)) {
      RightSame(s, r, s.waiters[k], OnMutex(k));
    }
    forall c | 0 <= c < |s.conds| ensures Right(r, r.conds[c], OnCond(c)) { RightSame(s, r, s.conds[c], OnCond(c)); }
    forall k | 0 <= k < |r.locked| && k < |r.waiters| && !r.locked[k] && r.waiters[k] != []
      ensures SomeoneComing(r, k)
    {
      ComingSame(s, r, k);
    }
  }

  lemma ReleaseWakes(s: State, m: nat, w: nat)
    requires Loose(s, m) && s.waiters[m] != [] && w == s.waiters[m][0] < |s.threads| && Belongs(s, w, OnMutex(m))
    ensures Inv(Release(s, m))
  {
    var r := Release(s, m);
    assert r.threads == Wake(s, w).threads;
    HeldSame(s, r);
    WokenOk(s, r, w);
    PopRight(s, r, w, s.waiters[m], OnMutex(m));
    assert QueuesRight(r) by {
      forall k | 0 <= k < |s.waiters| ensures Right(r, r.waiters[k], OnMutex(k)) {
        assert Right(s, s.waiters[k], OnMutex(k));
      }
      forall c | 0 <= c < |s.conds| ensures Right(r, r.conds[c], OnCond(c)) { assert Right(s, s.conds[c], OnCond(c)); }
    }
    assert ThreadOk(s, s.threads[w]);
    forall k | 0 <= k < |r.locked| && k < |r.waiters| && !r.locked[k] && r.waiters[k] != []
      ensures SomeoneComing(r, k)
    {
      if k == m { assert Coming(r, w, m); } else { ComingSame(s, r, k); }
    }
  }

  // ----- Each step keeps the invariant -----

  /** A thread may start to lock when it is idle, and tries again when it comes back from waiting. */
  predicate CanTry(s: State, t: nat, m: nat) {
    t < |s.threads| && m < |s.locked| && (s.threads[t].pc == Retry(m) || s.threads[t].pc == Idle)
  }

  lemma TakeInv(s: State, t: nat, m: nat)
    requires Inv(s) && CanTry(s, t, m) && !s.locked[m]
    ensures Inv(TryLock(s, t, m)) && m in TryLock(s, t, m).threads[t].holds
  {
    var r := TryLock(s, t, m);
    forall k | 0 <= k < |s.waiters| ensures Right(r, r.waiters[k], OnMutex(k)) {
      RightSame(s, r, s.waiters[k], OnMutex(k));
    }
    forall c | 0 <= c < |s.conds| ensures Right(r, r.conds[c], OnCond(c)) { RightSame(s, r, s.conds[c], OnCond(c)); }
    assert !Held(s, m);
    forall k: nat | k < |r.locked| ensures r.locked[k] <==> Held(r, k) {
      if k == m {
        assert m in r.threads[t].holds;
      } else {
        assert forall u :: 0 <= u < |s.threads| ==> (k in r.threads[u].holds <==> k in s.threads[u].holds);
      }
    }
    forall k | 0 <= k < |r.locked| && k < |r.waiters| && !r.locked[k] && r.waiters[k] != []
      ensures SomeoneComing(r, k)
    {
      assert forall u: nat :: Coming(s, u, k) ==> Coming(r, u, k);
      ComingSame(s, r, k);
    }
  }

  lemma RegisterInv(s: State, t: nat, m: nat)
    requires Inv(s) && CanTry(s, t, m) && s.locked[m]
    ensures Inv(TryLock(s, t, m))
  {
    var r := TryLock(s, t, m);
    assert forall u: nat, q :: Belongs(r, u, q) <==> Belongs(s, u, q) || (u == t && q == OnMutex(m));
    forall k | 0 <= k < |s.waiters| ensures Right(r, r.waiters[k], OnMutex(k)) {
      assert Right(s, s.waiters[k], OnMutex(k));
      NoDupJoin(s.waiters[k], [t]);
    }
    forall c | 0 <= c < |s.conds| ensures Right(r, r.conds[c], OnCond(c)) { RightSame(s, r, s.conds[c], OnCond(c)); }
    ExclusiveSame(s, r);
    forall k | 0 <= k < |r.locked| && k < |r.waiters| && !r.locked[k] && r.waiters[k] != []
      ensures SomeoneComing(r, k)
    {
      assert forall u: nat :: Coming(s, u, k) ==> Coming(r, u, k);
      ComingSame(s, r, k);
    }
  }

  lemma BlockInv(s: State, t: nat)
    requires Inv(s) && t < |s.threads| && s.threads[t].pc.Registered?
    ensures Inv(Block(s, t))
  {
    assert ThreadOk(s, s.threads[t]);
    SetInv(s, t, Block(s, t).threads[t]);
  }

  lemma ResumeInv(s: State, t: nat)
    requires Inv(s) && t < |s.threads| && s.threads[t].pc.Woken?
    ensures Inv(Resume(s, t))
  {
    assert ThreadOk(s, s.threads[t]);
    SetInv(s, t, Resume(s, t).threads[t]);
  }

  /** The holder lets go of `m`; the lock word is still to be cleared or handed on. */
  lemma LetGo(s: State, t: nat, m: nat)
    requires Inv(s) && t < |s.threads| && s.threads[t].pc == Idle && m in s.threads[t].holds
    ensures Loose(Set(s, t, s.threads[t].(holds := s.threads[t].holds - {m})), m)
  {
    var r := Set(s, t, s.threads[t].(holds := s.threads[t].holds - {m}));
    assert ThreadOk(s, s.threads[t]) && Held(s, m);
    forall k | 0 <= k < |s.waiters| ensures Right(r, r.waiters[k], OnMutex(k)) {
      RightSame(s, r, s.waiters[k], OnMutex(k));
    }
    forall c | 0 <= c < |s.conds| ensures Right(r, r.conds[c], OnCond(c)) { RightSame(s, r, s.conds[c], OnCond(c)); }
    LetGoHeld(s, r, t, m);
    forall k | 0 <= k < |r.locked| && k < |r.waiters| && !r.locked[k] && r.waiters[k] != []
      ensures SomeoneComing(r, k)
    {
      ComingSame(s, r, k);
    }
  }

  lemma LetGoHeld(s: State, r: State, t: nat, m: nat)
    requires Exclusive(s) && t < |s.threads| == |r.threads| && m in s.threads[t].holds && m < |s.locked|
    requires r.locked == s.locked
    requires r.threads[t].holds == s.threads[t].holds - {m}
    requires forall u :: 0 <= u < |s.threads| && u != t ==> r.threads[u].holds == s.threads[u].holds
    ensures !Held(r, m) && r.locked[m] && forall k: nat :: k < |r.locked| && k != m ==> (r.locked[k] <==> Held(r, k))
    ensures forall k: nat, x: nat, u: nat ::
              x < |r.threads| && u < |r.threads| && k in r.threads[x].holds && k in r.threads[u].holds ==> x == u
  {
    assert Held(s, m);
    forall k: nat | k < |r.locked| && k != m ensures Held(s, k) <==> Held(r, k) {
      assert forall u :: 0 <= u < |s.threads| ==> (k in r.threads[u].holds <==> k in s.threads[u].holds);
    }
  }

  lemma UnlockInv(s: State, t: nat, m: nat)
    requires Inv(s) && t < |s.threads| && s.threads[t].pc == Idle && m in s.threads[t].holds
    ensures m < |s.locked| && (s.waiters[m] != [] ==> s.waiters[m][0] < |s.threads|)
    ensures Inv(Unlock(s, t, m))
  {
    assert ThreadOk(s, s.threads[t]);
    LetGo(s, t, m);
    ReleaseInv(Set(s, t, s.threads[t].(holds := s.threads[t].holds - {m})), m);
  }

  lemma WaitInv(s: State, t: nat, c: nat, m: nat)
    requires Inv(s) && t < |s.threads| && s.threads[t].pc == Idle && m in s.threads[t].holds && c < |s.conds|
    ensures m < |s.locked| && (s.waiters[m] != [] ==> s.waiters[m][0] < |s.threads|)
    ensures Inv(Wait(s, t, c, m))
  {
    assert ThreadOk(s, s.threads[t]);
    var x := s.threads[t].(pc := Registered(OnCond(c), m), holds := s.threads[t].holds - {m});
    var r := Set(s, t, x).(conds := s.conds[c := s.conds[c] + [t]]);
    assert forall u: nat, q :: Belongs(r, u, q) <==> Belongs(s, u, q) || (u == t && q == OnCond(c));
    forall k | 0 <= k < |s.waiters| ensures Right(r, r.waiters[k], OnMutex(k)) {
      RightSame(s, r, s.waiters[k], OnMutex(k));
    }
    forall k | 0 <= k < |s.conds| ensures Right(r, r.conds[k], OnCond(k)) {
      assert Right(s, s.conds[k], OnCond(k));
      NoDupJoin(s.conds[k], [t]);
    }
    LetGoHeld(s, r, t, m);
    forall k | 0 <= k < |r.locked| && k < |r.waiters| && !r.locked[k] && r.waiters[k] != []
      ensures SomeoneComing(r, k)
    {
      ComingSame(s, r, k);
    }
    ReleaseInv(r, m);
  }

  lemma NotifyOneInv(s: State, c: nat)
    requires Inv(s) && c < |s.conds|
    ensures s.conds[c] != [] ==> s.conds[c][0] < |s.threads|
    ensures Inv(NotifyOne(s, c))
  {
    assert Right(s, s.conds[c], OnCond(c));
    if s.conds[c] != [] {
      var w := s.conds[c][0];
      assert w in s.conds[c] && Belongs(s, w, OnCond(c));
      var r := NotifyOne(s, c);
      WokenOk(s, r, w);
      PopRight(s, r, w, s.conds[c], OnCond(c));
      assert QueuesRight(r) by {
        forall k | 0 <= k < |s.waiters| ensures Right(r, r.waiters[k], OnMutex(k)) {
          assert Right(s, s.waiters[k], OnMutex(k));
        }
        forall k | 0 <= k < |s.conds| ensures Right(r, r.conds[k], OnCond(k)) {
          assert Right(s, s.conds[k], OnCond(k));
        }
      }
      ExclusiveSame(s, r);
      forall k | 0 <= k < |r.locked| && k < |r.waiters| && !r.locked[k] && r.waiters[k] != []
        ensures SomeoneComing(r, k)
      {
        ComingSame(s, r, k);
      }
    }
  }

  /** `Condvar::notify_all`: `notify_one` until the queue is empty. */
  function NotifyAll(s: State, c: nat): (r: State)
    requires Inv(s) && c < |s.conds|
    decreases if c < |s.conds| then |s.conds[c]| else 0
  {
    NotifyOneInv(s, c);
    if s.conds[c] == [] then s else NotifyAll(NotifyOne(s, c), c)
  }

  /** Nobody waits in the condition variable afterwards, and nobody who waited is still asleep. */
  lemma {:induction false} NotifyAllInv(s: State, c: nat)
    requires Inv(s) && c < |s.conds|
    ensures var r := NotifyAll(s, c);
            && Inv(r) && c < |r.conds| && r.conds[c] == [] && |r.threads| == |s.threads|
            && forall t :: 0 <= t < |r.threads| ==> !(r.threads[t].pc.Asleep? && r.threads[t].pc.q == OnCond(c))
    decreases |s.conds[c]|
  {
    NotifyOneInv(s, c);
    if s.conds[c] == [] {
      assert Right(s, s.conds[c], OnCond(c));
      forall t: nat | t < |s.threads| ensures !(s.threads[t].pc.Asleep? && s.threads[t].pc.q == OnCond(c)) {
        assert ThreadOk(s, s.threads[t]) && !Belongs(s, t, OnCond(c));
      }
    } else {
      NotifyAllInv(NotifyOne(s, c), c);
    }
  }

  // ----- All runs -----

  /** New mutexes and condition variables, and threads that have nothing to do with them. */
  function Start(threads: nat, mutexes: nat, conds: nat): (s: State) {
    State(seq(threads, i => Thread(Idle, false, {})), seq(mutexes, i => false), seq(mutexes, i => []),
      seq(conds, i => []))
  }

  lemma StartInv(threads: nat, mutexes: nat, conds: nat)
    ensures Inv(Start(threads, mutexes, conds))
  {
    var s := Start(threads, mutexes, conds);
    assert forall m: nat :: !Held(s, m);
  }

  datatype Op = DoTry(t: nat, m: nat) | DoBlock(t: nat) | DoResume(t: nat) | DoUnlock(t: nat, m: nat)
              | DoWait(t: nat, c: nat, m: nat) | DoNotifyOne(c: nat) | DoNotifyAll(c: nat)

  predicate Enabled(s: State, op: Op) {
    match op
    case DoTry(t, m) => CanTry(s, t, m)
    case DoBlock(t) => t < |s.threads| && s.threads[t].pc.Registered?
    case DoResume(t) => t < |s.threads| && s.threads[t].pc.Woken?
    case DoUnlock(t, m) => t < |s.threads| && s.threads[t].pc == Idle && m in s.threads[t].holds
    case DoWait(t, c, m) => t < |s.threads| && s.threads[t].pc == Idle && m in s.threads[t].holds && c < |s.conds|
    case DoNotifyOne(c) => c < |s.conds|
    case DoNotifyAll(c) => c < |s.conds|
  }

  ghost predicate Next(s: State, op: Op, r: State)
    requires Inv(s) && Enabled(s, op)
  {
    match op
    case DoTry(t, m) => r == TryLock(s, t, m)
    case DoBlock(t) => r == Block(s, t)
    case DoResume(t) => r == Resume(s, t)
    case DoUnlock(t, m) => UnlockInv(s, t, m); r == Unlock(s, t, m)
    case DoWait(t, c, m) => WaitInv(s, t, c, m); r == Wait(s, t, c, m)
    case DoNotifyOne(c) => NotifyOneInv(s, c); r == NotifyOne(s, c)
    case DoNotifyAll(c) => r == NotifyAll(s, c)
  }

  lemma NextInv(s: State, op: Op, r: State)
    requires Inv(s) && Enabled(s, op) && Next(s, op, r)
    ensures Inv(r)
  {
    match op
    case DoTry(t, m) => if s.locked[m] { RegisterInv(s, t, m); } else { TakeInv(s, t, m); }
    case DoBlock(t) => BlockInv(s, t);
    case DoResume(t) => ResumeInv(s, t);
    case DoUnlock(t, m) => UnlockInv(s, t, m);
    case DoWait(t, c, m) => WaitInv(s, t, c, m);
    case DoNotifyOne(c) => NotifyOneInv(s, c);
    case DoNotifyAll(c) => NotifyAllInv(s, c);
  }

  ghost predicate IsRun(states: seq<State>, ops: seq<Op>) {
    |states| == |ops| + 1 && Inv(states[0]) &&
    forall i :: 0 <= i < |ops| ==> Inv(states[i]) ==>
      Enabled(states[i], ops[i]) && Next(states[i], ops[i], states[i + 1])
  }

  /**
    At every point of every run: a mutex is never held twice and is locked exactly while held; a thread
    is in at most one queue, once; and a free mutex with waiters has a woken thread on its way to it.
  */
  lemma {:induction false} RunInv(states: seq<State>, ops: seq<Op>, n: nat)
    requires IsRun(states, ops) && n < |states|
    ensures Inv(states[n])
    decreases n
  {
    if n > 0 {
      RunInv(states, ops, n - 1);
      NextInv(states[n - 1], ops[n - 1], states[n]);
    }
  }

  /** A thread is registered at most once over all queues. */
  lemma RegisteredOnce(s: State, t: nat, a: nat, b: nat)
    requires Inv(s)
    ensures a < |s.waiters| && b < |s.conds| ==> !(t in s.waiters[a] && t in s.conds[b])
    ensures a < |s.waiters| && b < |s.waiters| && t in s.waiters[a] && t in s.waiters[b] ==> a == b
    ensures a < |s.conds| && b < |s.conds| && t in s.conds[a] && t in s.conds[b] ==> a == b
  {
    assert forall m :: 0 <= m < |s.waiters| ==> Right(s, s.waiters[m], OnMutex(m));
    assert forall c :: 0 <= c < |s.conds| ==> Right(s, s.conds[c], OnCond(c));
  }
}
