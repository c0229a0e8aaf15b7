/** First come, first woken: a waiter of a mutex moves forward with every release, and is woken by the last of them. */
module SyncOrder {
  import opened Common
  import opened Sync

  /** The step frees mutex `m`. */
  predicate Releases(op: Op, m: nat) {
    (op.DoUnlock? || op.DoWait?) && op.m == m
  }

  /** `w` is still queued for `m`, with at most `k` before it, or has been woken. */
  predicate InQueue(s: State, m: nat, w: nat, k: nat) {
    m < |s.waiters| && w in s.waiters[m] && Rank(s.waiters[m], w) <= k
  }

  lemma UnlockMoves(s: State, t: nat, m: nat, w: nat, k: nat)
    requires Inv(s) && t < |s.threads| && s.threads[t].pc == Idle && m in s.threads[t].holds
    requires m < |s.locked| && InQueue(s, m, w, k) && s.waiters[m][0] < |s.threads|
    ensures var r := Unlock(s, t, m); if s.waiters[m][0] == w then Coming(r, w, m) else k > 0 && InQueue(r, m, w, k - 1)
  {
    assert Right(s, s.waiters[m], OnMutex(m));
    assert s.waiters[m][0] in s.waiters[m] && Belongs(s, s.waiters[m][0], OnMutex(m));
    assert ThreadOk(s, s.threads[s.waiters[m][0]]);
  }

  lemma WaitMoves(s: State, t: nat, c: nat, m: nat, w: nat, k: nat)
    requires Inv(s) && t < |s.threads| && s.threads[t].pc == Idle && m in s.threads[t].holds && c < |s.conds|
    requires m < |s.locked| && InQueue(s, m, w, k) && s.waiters[m][0] < |s.threads|
    ensures var r := Wait(s, t, c, m);
            if s.waiters[m][0] == w then Coming(r, w, m) else k > 0 && InQueue(r, m, w, k - 1)
  {
    assert Right(s, s.waiters[m], OnMutex(m));
    assert s.waiters[m][0] in s.waiters[m] && Belongs(s, s.waiters[m][0], OnMutex(m));
    assert ThreadOk(s, s.threads[s.waiters[m][0]]);
  }

  lemma {:induction false} NotifyAllKeeps(s: State, c: nat)
    requires Inv(s) && c < |s.conds|
    ensures NotifyAll(s, c).waiters == s.waiters
    decreases |s.conds[c]|
  {
    NotifyOneInv(s, c);
    if s.conds[c] != [] { NotifyAllKeeps(NotifyOne(s, c), c); }
  }

  /** Freeing a mutex wakes its first waiter and moves the others forward; no other step moves anybody back. */
  lemma StepMoves(s: State, op: Op, r: State, m: nat, w: nat, k: nat)
    requires Inv(s) && Enabled(s, op) && Next(s, op, r) && InQueue(s, m, w, k)
    ensures if !Releases(op, m) then InQueue(r, m, w, k)
            else if s.waiters[m][0] == w then Coming(r, w, m) else k > 0 && InQueue(r, m, w, k - 1)
  {
    match op
    case DoTry(t, n) => if n < |s.waiters| { if n == m { RankJoin(s.waiters[m], t, w); } }
    case DoBlock(_) =>
    case DoResume(_) =>
    case DoUnlock(t, n) =>
      UnlockInv(s, t, n);
      if n == m { UnlockMoves(s, t, m, w, k); }
    case DoWait(t, c, n) =>
      WaitInv(s, t, c, n);
      if n == m { WaitMoves(s, t, c, m, w, k); }
    case DoNotifyOne(c) => NotifyOneInv(s, c);
    case DoNotifyAll(c) => NotifyAllKeeps(s, c);
  }

  function Frees(ops: seq<Op>, m: nat): (n: nat) {
    if ops == [] then 0 else Frees(ops[..|ops| - 1], m) + if Releases(ops[|ops| - 1], m) then 1 else 0
  }

  lemma {:induction false} MovesUp(states: seq<State>, ops: seq<Op>, m: nat, w: nat, k: nat, n: nat)
    requires IsRun(states, ops) && InQueue(states[0], m, w, k) && n <= |ops|
    requires forall i :: 0 < i <= n ==> !Coming(states[i], w, m)
    ensures Frees(ops[..n], m) <= k && InQueue(states[n], m, w, k - Frees(ops[..n], m))
    decreases n
  {
    if n > 0 {
      MovesUp(states, ops, m, w, k, n - 1);
      RunInv(states, ops, n - 1);
      assert ops[..n][..n - 1] == ops[..n - 1];
      StepMoves(states[n - 1], ops[n - 1], states[n], m, w, k - Frees(ops[..n - 1], m));
    }
  }

  /**
    In every run: a waiter with `k` others before it has been woken, and is on its way to the mutex, by the time the
    mutex has been freed `k + 1` times, whoever takes it in between.
  */
  lemma WaiterServed(states: seq<State>, ops: seq<Op>, m: nat, w: nat, k: nat)
    requires IsRun(states, ops) && InQueue(states[0], m, w, k) && Frees(ops, m) > k
    ensures exists i :: 0 < i < |states| && Coming(states[i], w, m)
  {
    assert ops[..|ops|] == ops;
    if forall i :: 0 < i < |states| ==> !Coming(states[i], w, m) { MovesUp(states, ops, m, w, k, |ops|); }
  }

  /** A notification is for the thread that has waited longest, which will try to take its mutex again. */
  lemma NotifiesFirst(s: State, c: nat, w: nat)
    requires Inv(s) && c < |s.conds| && s.conds[c] != [] && w == s.conds[c][0] && w < |s.threads|
    ensures Waits(s.threads[w].pc, OnCond(c))
    ensures var r := NotifyOne(s, c);
            r.conds[c] == s.conds[c][1..] && r.waiters == s.waiters && Coming(r, w, s.threads[w].pc.mutex)
  {
    assert Right(s, s.conds[c], OnCond(c));
    assert w in s.conds[c] && Belongs(s, w, OnCond(c));
    assert ThreadOk(s, s.threads[w]);
  }

  /** Whoever waits on a condition is last there, and has given up its mutex. */
  lemma WaitsLast(s: State, t: nat, c: nat, m: nat)
    requires Inv(s) && t < |s.threads| && s.threads[t].pc == Idle && m in s.threads[t].holds && c < |s.conds|
    ensures m < |s.locked| && (s.waiters[m] != [] ==> s.waiters[m][0] < |s.threads|)
    ensures var r := Wait(s, t, c, m);
            && r.conds == s.conds[c := s.conds[c] + [t]] && t < |r.threads| && m < |r.locked|
            && Waits(r.threads[t].pc, OnCond(c)) && r.threads[t].pc.mutex == m && m !in r.threads[t].holds
            && !r.locked[m]
  {
    WaitInv(s, t, c, m);
    assert Right(s, s.waiters[m], OnMutex(m));
    if s.waiters[m] != [] {
      assert s.waiters[m][0] in s.waiters[m] && Belongs(s, s.waiters[m][0], OnMutex(m));
    }
  }
}
