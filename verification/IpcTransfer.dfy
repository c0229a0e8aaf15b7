/**
  Messages from end to end. Whatever the harts do in between: a receiver that waited finds the words of the send that
  took its entry; a receiver that comes later gets the words that were queued; senders get their acknowledgement, and
  the peers of a dead process its error.
*/
module IpcTransfer {
  import opened Common
  import opened SchedModel
  import opened SchedSteps
  import opened SchedWake
  import opened IpcModel
  import opened IpcSystem
  import opened IpcRuns
  import opened IpcMessages
  import opened IpcAnswers

  // ----- Runs in which a call is not over -----

  ghost predicate StaysIn(y: Sys, ops: seq<Op>, gp: nat, tid: nat)
    requires SysInv(y) && Legal(y, ops, gp)
    decreases |ops|
  {
    && InIpc(y.phase, tid)
    && (ops != [] ==> (StepKeeps(y, ops[0], gp); StaysIn(Step(y, ops[0], gp).0, ops[1..], gp, tid)))
  }

  /** The frame that thread `tid` has handed over when it sleeps at the end of the run, having begun with `f`. */
  ghost function Handed(y: Sys, ops: seq<Op>, gp: nat, tid: nat, f: seq<nat>): (g: seq<nat>)
    requires SysInv(y) && Legal(y, ops, gp)
    decreases |ops|
  {
    if ops == [] then f
    else
      StepKeeps(y, ops[0], gp);
      Handed(Step(y, ops[0], gp).0, ops[1..], gp, tid, if SleepsBy(y, ops[0], tid) then ops[0].frame else f)
  }

  lemma {:induction false} RunOwed(y: Sys, ops: seq<Op>, gp: nat, tid: nat, d: Delivery)
    requires SysInv(y) && Legal(y, ops, gp) && StaysIn(y, ops, gp, tid) && Owed(y, tid, d)
    ensures SysInv(Run(y, ops, gp)) && Owed(Run(y, ops, gp), tid, d)
    decreases |ops|
  {
    if ops != [] {
      StepKeeps(y, ops[0], gp);
      StepOwed(y, ops[0], gp, tid, d);
      RunOwed(Step(y, ops[0], gp).0, ops[1..], gp, tid, d);
    }
  }

  lemma {:induction false} RunFrame(y: Sys, ops: seq<Op>, gp: nat, tid: nat, f: seq<nat>)
    requires SysInv(y) && Legal(y, ops, gp) && StaysIn(y, ops, gp, tid)
    requires y.phase[tid].Waiting? ==> f == FrameOf(y.sched, tid)
    ensures var z := Run(y, ops, gp);
            && SameKind(y.sched, z.sched, tid) && InIpc(z.phase, tid)
            && (y.sched.threads[tid].user && z.phase[tid].Waiting? ==>
                  FrameOf(z.sched, tid) == Handed(y, ops, gp, tid, f))
    decreases |ops|
  {
    InIpcExists(y, tid);
    if ops != [] {
      StepKeeps(y, ops[0], gp);
      StepFrame(y, ops[0], gp, tid);
      var g := if SleepsBy(y, ops[0], tid) then ops[0].frame else f;
      if y.sched.threads[tid].user {
        RunFrame(Step(y, ops[0], gp).0, ops[1..], gp, tid, g);
      } else {
        RunKind(Step(y, ops[0], gp).0, ops[1..], gp, tid);
      }
    }
  }

  lemma {:induction false} RunKind(y: Sys, ops: seq<Op>, gp: nat, tid: nat)
    requires SysInv(y) && Legal(y, ops, gp) && StaysIn(y, ops, gp, tid)
    ensures SameKind(y.sched, Run(y, ops, gp).sched, tid) && InIpc(Run(y, ops, gp).phase, tid)
    decreases |ops|
  {
    InIpcExists(y, tid);
    if ops != [] {
      StepKeeps(y, ops[0], gp);
      StepFrame(y, ops[0], gp, tid);
      RunKind(Step(y, ops[0], gp).0, ops[1..], gp, tid);
    }
  }

  /** The call of `tid` goes on through `ops`, in `z`, and ends with the step `last`. */
  ghost predicate EndsAfter(y: Sys, ops: seq<Op>, last: Op, gp: nat, tid: nat, z: Sys) {
    && SysInv(y) && Legal(y, ops, gp) && StaysIn(y, ops, gp, tid) && z == Run(y, ops, gp)
    && SysInv(z) && Enabled(z, last) && !InIpc(Step(z, last, gp).0.phase, tid)
  }

  /** The frame with which a user thread entered the call that ends with `last`. */
  ghost function Entered(y: Sys, ops: seq<Op>, last: Op, gp: nat, tid: nat): (f: seq<nat>)
    requires SysInv(y) && Legal(y, ops, gp)
  {
    if last.Sleeping? then last.frame else Handed(y, ops, gp, tid, FrameOf(y.sched, tid))
  }

  /** What thread `tid` is left with when its call ends with result `d`. */
  ghost predicate Gets(y: Sys, ops: seq<Op>, last: Op, gp: nat, tid: nat, z: Sys, d: Delivery)
    requires SysInv(y) && Legal(y, ops, gp) && SysInv(z) && Enabled(z, last)
  {
    && IsIpc(last) && tid < |y.sched.threads|
    && if y.sched.threads[tid].user
       then Answered(Entered(y, ops, last, gp, tid), FrameAfter(z, last, tid), d, !last.Delivering?)
       else Mailed(BoxOf(Step(z, last, gp).0.sched, tid), d, !last.Delivering?)
  }

  /** What was settled is what the caller gets, whatever happens in between. */
  lemma SettledIsGot(y: Sys, ops: seq<Op>, last: Op, gp: nat, tid: nat, z: Sys, d: Delivery)
    requires EndsAfter(y, ops, last, gp, tid, z) && Owed(y, tid, d)
    ensures Gets(y, ops, last, gp, tid, z, d)
  {
    RunOwed(y, ops, gp, tid, d);
    RunFrame(y, ops, gp, tid, FrameOf(y.sched, tid));
    InIpcExists(z, tid);
    StepEnds(z, last, gp, tid);
    EndAnswers(z, last, tid, d);
  }

  // ----- What settles a call -----

  /** Thread `tid` waits to receive, or to be received from. */
  ghost predicate HasRecv(i: Ipc, tid: nat) {
    exists k :: 0 <= k < |i.recvs| && i.recvs[k].tid == tid
  }

  ghost predicate HasSend(i: Ipc, tid: nat) {
    exists k :: 0 <= k < |i.sends| && i.sends[k].tid == tid
  }

  lemma RecvInIpc(y: Sys, k: nat)
    requires SysInv(y) && k < |y.ipc.recvs|
    ensures InIpc(y.phase, y.ipc.recvs[k].tid)
  {
    var tid := y.ipc.recvs[k].tid;
    RecvTidsCut(y.ipc.recvs, k, tid);
    assert Tokens(y, tid) == if InIpc(y.phase, tid) then 1 else 0;
  }

  lemma SendInIpc(y: Sys, k: nat)
    requires SysInv(y) && k < |y.ipc.sends|
    ensures InIpc(y.phase, y.ipc.sends[k].tid)
  {
    var tid := y.ipc.sends[k].tid;
    SendTidsCut(y.ipc.sends, k, tid);
    assert Tokens(y, tid) == if InIpc(y.phase, tid) then 1 else 0;
  }

  /** Two entries of one thread are the same entry. */
  lemma OneSend(y: Sys, i: nat, j: nat)
    requires SysInv(y) && i < |y.ipc.sends| && j < |y.ipc.sends| && y.ipc.sends[i].tid == y.ipc.sends[j].tid
    ensures i == j
  {
    var tid := y.ipc.sends[i].tid;
    assert Tokens(y, tid) == if InIpc(y.phase, tid) then 1 else 0;
    SendTidsCut(y.ipc.sends, i, tid);
    if i != j {
      var k := if j < i then j else j - 1;
      assert Cut(y.ipc.sends, i)[k] == y.ipc.sends[j];
      SendTidsCut(Cut(y.ipc.sends, i), k, tid);
    }
  }

  lemma CutRecv(l: seq<PendingRecv>, k: nat, j: nat)
    requires k < |l| && j < |l|
    ensures j == k || exists n :: 0 <= n < |Cut(l, k)| && Cut(l, k)[n] == l[j]
  {
    if j != k { assert Cut(l, k)[if j < k then j else j - 1] == l[j]; }
  }

  lemma CutSend(l: seq<PendingSend>, k: nat, j: nat)
    requires k < |l| && j < |l|
    ensures j == k || exists n :: 0 <= n < |Cut(l, k)| && Cut(l, k)[n] == l[j]
  {
    if j != k { assert Cut(l, k)[if j < k then j else j - 1] == l[j]; }
  }

  /** The receive of `tid` was for this process, and named the sender or listened. */
  ghost predicate Wanted(i: Ipc, tid: nat, dst: nat, pid: nat) {
    exists k ::
      0 <= k < |i.recvs| && i.recvs[k].tid == tid && i.recvs[k].pid == dst && i.recvs[k].src in {pid, ACCEPT_ANY}
  }

  /** A send that takes the entry of a receiver settles its call with the words that are sent. */
  lemma SendSettles(y: Sys, h: nat, dst: nat, msg: seq<nat>, tid: nat)
    requires SysInv(y) && CanCall(y, h) && HasRecv(y.ipc, tid) && !HasRecv(SendStep(y, h, dst, msg).ipc, tid)
    ensures Owed(SendStep(y, h, dst, msg), tid, Message(msg))
    ensures Wanted(y.ipc, tid, dst, y.sched.threads[y.sched.current[h]].proc.value)
  {
    var pid, r := y.sched.threads[y.sched.current[h]].proc.value, SendStep(y, h, dst, msg);
    var k := Receiver(y.ipc.recvs, dst, pid);
    var j :| 0 <= j < |y.ipc.recvs| && y.ipc.recvs[j].tid == tid;
    RecvInIpc(y, j);
    if k < |y.ipc.recvs| { CutRecv(y.ipc.recvs, k, j); }
    assert r.transit[|y.transit|] == Transit(tid, Message(msg));
  }

  /** A receive that takes the entry of a sender acknowledges it, and returns its words. */
  lemma RecvSettles(y: Sys, h: nat, src: nat, e: PendingSend)
    requires SysInv(y) && CanCall(y, h) && e in y.ipc.sends && !HasSend(RecvStep(y, h, src).ipc, e.tid)
    ensures Owed(RecvStep(y, h, src), e.tid, Ack)
    ensures RecvReturns(y, h, src) == Some(e.msg)
    ensures e.pid == src && y.sched.threads[y.sched.current[h]].proc == Some(e.dst)
  {
    var pid, r := y.sched.threads[y.sched.current[h]].proc.value, RecvStep(y, h, src);
    var k := SendPos(y.ipc.sends, src, pid);
    var j :| 0 <= j < |y.ipc.sends| && y.ipc.sends[j] == e;
    SendInIpc(y, j);
    if k < |y.ipc.sends| { CutSend(y.ipc.sends, k, j); }
    assert r.transit[|y.transit|] == Transit(e.tid, Ack);
  }

  /** A purge that removes the entry of a survivor settles its call with the error. */
  lemma PurgeSettles(y: Sys, pid: nat, tid: nat)
    requires SysInv(y) && OwnSends(y.ipc.sends, pid) == [] && OwnRecvs(y.ipc.recvs, pid) == []
    requires HasRecv(y.ipc, tid) || HasSend(y.ipc, tid)
    requires !HasRecv(PurgeStep(y, pid).ipc, tid) && !HasSend(PurgeStep(y, pid).ipc, tid)
    ensures Owed(PurgeStep(y, pid), tid, PeerGone(ENOENT))
  {
    var r, woken := PurgeStep(y, pid), Purge(y.ipc, pid).1;
    if HasRecv(y.ipc, tid) {
      var k :| 0 <= k < |y.ipc.recvs| && y.ipc.recvs[k].tid == tid;
      RecvInIpc(y, k);
      LostRecv(y.ipc.recvs, pid, k);
    } else {
      var k :| 0 <= k < |y.ipc.sends| && y.ipc.sends[k].tid == tid;
      SendInIpc(y, k);
      LostSend(y.ipc.sends, pid, k);
    }
    var n := ErrorFor(woken, tid);
    assert r.transit[|y.transit| + n] == Transit(tid, PeerGone(ENOENT));
  }

  lemma {:induction false} LostRecv(l: seq<PendingRecv>, pid: nat, k: nat)
    requires k < |l| && OwnRecvs(l, pid) == []
    ensures l[k] in KeptRecvs(l, pid) || l[k].tid in LostRecvs(l, pid)
    decreases |l|
  {
    if k > 0 {
      LostRecv(l[1..], pid, k - 1);
    }
  }

  lemma {:induction false} LostSend(l: seq<PendingSend>, pid: nat, k: nat)
    requires k < |l| && OwnSends(l, pid) == []
    ensures l[k] in KeptSends(l, pid) || l[k].tid in LostSends(l, pid)
    decreases |l|
  {
    if k > 0 {
      LostSend(l[1..], pid, k - 1);
    }
  }

  lemma {:induction false} ErrorFor(tids: seq<nat>, tid: nat) returns (n: nat)
    requires tid in tids
    ensures n < |Errors(tids)| && Errors(tids)[n] == Transit(tid, PeerGone(ENOENT))
    decreases |tids|
  {
    if tids[0] == tid {
      n := 0;
    } else {
      n := ErrorFor(tids[1..], tid);
      n := n + 1;
    }
  }

  // ----- The theorems -----

  /**
    A receiver that waits, in its call or on its way to sleep: the send that takes its entry determines what it finds.
    A user thread has the sender's words in `a1..a5`, zero in `a0`, and goes on behind its call; a kernel thread has
    them in its mailbox.
  */
  lemma MessageArrives(y: Sys, h: nat, dst: nat, msg: seq<nat>, ops: seq<Op>, last: Op, gp: nat, tid: nat, z: Sys)
    requires SysInv(y) && Enabled(y, Sending(h, dst, msg))
    requires HasRecv(y.ipc, tid) && !HasRecv(SendStep(y, h, dst, msg).ipc, tid)
    requires EndsAfter(SendStep(y, h, dst, msg), ops, last, gp, tid, z)
    ensures Gets(SendStep(y, h, dst, msg), ops, last, gp, tid, z, Message(msg))
  {
    SendSettles(y, h, dst, msg, tid);
    SettledIsGot(SendStep(y, h, dst, msg), ops, last, gp, tid, z, Message(msg));
  }

  lemma GetsArgs(x: Sys, f: seq<nat>, ops: seq<Op>, last: Op, gp: nat, tid: nat, z: Sys)
    requires SysInv(x) && Legal(x, ops, gp) && SysInv(z) && Enabled(z, last) && |f| == FRAME_WORDS
    requires tid < |x.sched.threads| && x.sched.threads[tid].user && Gets(x, ops, last, gp, tid, z, Message(Args(f)))
    ensures IsIpc(last) && SameArgs(f, FrameAfter(z, last, tid))
  {
    AnsweredArgs(f, Entered(x, ops, last, gp, tid), FrameAfter(z, last, tid), !last.Delivering?);
  }

  /** Between user threads: the receiver has in `a1..a5` what the sender had there when it called. */
  lemma RegistersCross(y: Sys, h: nat, dst: nat, f: seq<nat>, x: Sys, ops: seq<Op>, last: Op, gp: nat, tid: nat, z: Sys)
    requires |f| == FRAME_WORDS && SysInv(y) && Enabled(y, Sending(h, dst, Args(f)))
    requires x == SendStep(y, h, dst, Args(f))
    requires HasRecv(y.ipc, tid) && !HasRecv(x.ipc, tid) && tid < |x.sched.threads| && x.sched.threads[tid].user
    requires EndsAfter(x, ops, last, gp, tid, z)
    ensures IsIpc(last) && SameArgs(f, FrameAfter(z, last, tid))
  {
    MessageArrives(y, h, dst, Args(f), ops, last, gp, tid, z);
    GetsArgs(x, f, ops, last, gp, tid, z);
  }

  /** A sender whose message is fetched later gets its acknowledgement. */
  lemma AckArrives(y: Sys, h: nat, src: nat, e: PendingSend, ops: seq<Op>, last: Op, gp: nat, z: Sys)
    requires SysInv(y) && Enabled(y, Receiving(h, src)) && e in y.ipc.sends
    requires !HasSend(RecvStep(y, h, src).ipc, e.tid)
    requires EndsAfter(RecvStep(y, h, src), ops, last, gp, e.tid, z)
    ensures Gets(RecvStep(y, h, src), ops, last, gp, e.tid, z, Ack)
  {
    RecvSettles(y, h, src, e);
    SettledIsGot(RecvStep(y, h, src), ops, last, gp, e.tid, z, Ack);
  }

  /** Whoever waits for a process that is purged gets the error. */
  lemma ErrorArrives(y: Sys, pid: nat, ops: seq<Op>, last: Op, gp: nat, tid: nat, z: Sys)
    requires SysInv(y) && Enabled(y, Purging(pid)) && (HasRecv(y.ipc, tid) || HasSend(y.ipc, tid))
    requires !HasRecv(PurgeStep(y, pid).ipc, tid) && !HasSend(PurgeStep(y, pid).ipc, tid)
    requires EndsAfter(PurgeStep(y, pid), ops, last, gp, tid, z)
    ensures Gets(PurgeStep(y, pid), ops, last, gp, tid, z, PeerGone(ENOENT))
  {
    PurgeSettles(y, pid, tid);
    SettledIsGot(PurgeStep(y, pid), ops, last, gp, tid, z, PeerGone(ENOENT));
  }

  // ----- A message that is queued first -----

  /** Where the entries come from. */
  ghost predicate SendsFrom(i: Ipc, j: Ipc, e: PendingSend) {
    forall x :: x in j.sends ==> x in i.sends || x.tid != e.tid
  }

  lemma EntryStays(y: Sys, r: Sys, e: PendingSend)
    requires SysInv(y) && e in y.ipc.sends && SendsFrom(y.ipc, r.ipc, e) && HasSend(r.ipc, e.tid)
    ensures e in r.ipc.sends
  {
    var k :| 0 <= k < |r.ipc.sends| && r.ipc.sends[k].tid == e.tid;
    var x := r.ipc.sends[k];
    var a :| 0 <= a < |y.ipc.sends| && y.ipc.sends[a] == e;
    var b :| 0 <= b < |y.ipc.sends| && y.ipc.sends[b] == x;
    OneSend(y, a, b);
  }

  lemma PurgeFrom(i: Ipc, pid: nat)
    ensures forall x :: x in Purge(i, pid).0.sends ==> x in i.sends
  {
  }

  /** A caller has no entry yet. */
  lemma CallerFrom(y: Sys, h: nat, dst: nat, msg: seq<nat>, e: PendingSend)
    requires SysInv(y) && CanCall(y, h) && e in y.ipc.sends
    ensures SendsFrom(y.ipc, SendStep(y, h, dst, msg).ipc, e)
  {
    var k :| 0 <= k < |y.ipc.sends| && y.ipc.sends[k] == e;
    SendInIpc(y, k);
  }

  lemma CallFrom(y: Sys, op: Op, e: PendingSend)
    requires SysInv(y) && Enabled(y, op) && IsIpc(op) && e in y.ipc.sends
    ensures SendsFrom(y.ipc, IpcStep(y, op).0.ipc, e)
  {
    match op
    case Sending(h, dst, msg) => CallerFrom(y, h, dst, msg, e);
    case Purging(pid) => PurgeFrom(y.ipc, pid);
    case _ =>
  }

  lemma StepFrom(y: Sys, op: Op, gp: nat, e: PendingSend)
    requires SysInv(y) && Enabled(y, op) && e in y.ipc.sends
    ensures SendsFrom(y.ipc, Step(y, op, gp).0.ipc, e)
  {
    if IsIpc(op) { CallFrom(y, op, e); }
  }

  ghost predicate StaysQueued(y: Sys, ops: seq<Op>, gp: nat, tid: nat)
    requires SysInv(y) && Legal(y, ops, gp)
    decreases |ops|
  {
    && HasSend(y.ipc, tid)
    && (ops != [] ==> (StepKeeps(y, ops[0], gp); StaysQueued(Step(y, ops[0], gp).0, ops[1..], gp, tid)))
  }

  lemma {:induction false} RunQueued(y: Sys, ops: seq<Op>, gp: nat, e: PendingSend)
    requires SysInv(y) && Legal(y, ops, gp) && StaysQueued(y, ops, gp, e.tid) && e in y.ipc.sends
    ensures SysInv(Run(y, ops, gp)) && e in Run(y, ops, gp).ipc.sends
    decreases |ops|
  {
    if ops != [] {
      var r := Step(y, ops[0], gp).0;
      StepKeeps(y, ops[0], gp);
      StepFrom(y, ops[0], gp, e);
      EntryStays(y, r, e);
      RunQueued(r, ops[1..], gp, e);
    }
  }

  /** A send that finds no receiver leaves an entry with its words, of its thread and process, for its peer. */
  lemma SendQueues(y: Sys, h: nat, dst: nat, msg: seq<nat>)
    requires SysInv(y) && CanCall(y, h)
    ensures var tid, r := y.sched.current[h], SendStep(y, h, dst, msg);
            HasSend(r.ipc, tid) ==>
              PendingSend(tid, y.sched.threads[tid].proc.value, dst, msg) in r.ipc.sends
  {
    var tid, r := y.sched.current[h], SendStep(y, h, dst, msg);
    if HasSend(r.ipc, tid) && r.ipc.sends == y.ipc.sends {
      var k :| 0 <= k < |r.ipc.sends| && r.ipc.sends[k].tid == tid;
      SendInIpc(y, k);
    }
  }

  /** The entry of `tid` stays through `ops`, until in `z` a receive on hart `g` takes it. */
  ghost predicate FetchedAfter(r: Sys, ops: seq<Op>, gp: nat, tid: nat, z: Sys, g: nat, src: nat) {
    && SysInv(r) && Legal(r, ops, gp) && StaysQueued(r, ops, gp, tid) && z == Run(r, ops, gp)
    && SysInv(z) && Enabled(z, Receiving(g, src)) && !HasSend(RecvStep(z, g, src).ipc, tid)
  }

  lemma EntryFetched(r: Sys, ops: seq<Op>, gp: nat, e: PendingSend, z: Sys, g: nat, src: nat)
    requires FetchedAfter(r, ops, gp, e.tid, z, g, src) && e in r.ipc.sends
    ensures CanCall(z, g) && RecvReturns(z, g, src) == Some(e.msg)
    ensures e.pid == src && z.sched.threads[z.sched.current[g]].proc == Some(e.dst)
  {
    RunQueued(r, ops, gp, e);
    RecvSettles(z, g, src, e);
  }

  /**
    A message that was queued: the receive that takes it, by a thread of the addressed process that names the sender's,
    returns its words.
  */
  lemma QueuedMessageFetched(y: Sys, h: nat, dst: nat, msg: seq<nat>, ops: seq<Op>, gp: nat, z: Sys, g: nat, src: nat)
    requires SysInv(y) && Enabled(y, Sending(h, dst, msg))
    requires FetchedAfter(SendStep(y, h, dst, msg), ops, gp, y.sched.current[h], z, g, src)
    ensures CanCall(z, g) && RecvReturns(z, g, src) == Some(msg)
    ensures y.sched.threads[y.sched.current[h]].proc == Some(src)
    ensures z.sched.threads[z.sched.current[g]].proc == Some(dst)
  {
    var tid, r := y.sched.current[h], SendStep(y, h, dst, msg);
    StillQueued(r, ops, gp, tid);
    SendQueues(y, h, dst, msg);
    EntryFetched(r, ops, gp, PendingSend(tid, y.sched.threads[tid].proc.value, dst, msg), z, g, src);
  }

  lemma StillQueued(y: Sys, ops: seq<Op>, gp: nat, tid: nat)
    requires SysInv(y) && Legal(y, ops, gp) && StaysQueued(y, ops, gp, tid)
    ensures HasSend(y.ipc, tid)
  {
  }

  // ----- Calls that return at once -----

  /** The frame after a call that was paired at once: the words received, or only success for a sender. */
  function Returned(frame: seq<nat>, words: Option<seq<nat>>): (g: seq<nat>)
    requires |frame| == FRAME_WORDS && (words.Some? ==> |words.value| == MSG_WORDS)
  {
    Written(frame, if words.Some? then Message(words.value) else Ack)
  }

  /** What a user thread finds in its registers: success, the words received, and the address behind its call. */
  lemma ReturnedLaw(frame: seq<nat>, words: Option<seq<nat>>)
    requires |frame| == FRAME_WORDS && (words.Some? ==> |words.value| == MSG_WORDS)
    ensures var g := Returned(frame, words);
            && Returns(frame, g, 0)
            && (if words.Some? then Carries(g, words.value) else SameArgs(frame, g))
  {
    WrittenLaw(frame, if words.Some? then Message(words.value) else Ack);
  }
}
