/** The rendezvous: the two pending queues, and the order in which messages arrive. */
module IpcModel {
  import opened Common

  /** The sender a listening receive names; no process has this id. */
  const ACCEPT_ANY: nat := 0xFFFF_FFFF_FFFF_FFFF

  datatype PendingSend = PendingSend(tid: nat, pid: nat, dst: nat, msg: seq<nat>)
  datatype PendingRecv = PendingRecv(tid: nat, pid: nat, src: nat)
  datatype Ipc = Ipc(sends: seq<PendingSend>, recvs: seq<PendingRecv>)

  /** First receive by `dst` that names `src`, or the length. */
  function RecvPos(recvs: seq<PendingRecv>, dst: nat, src: nat): (k: nat)
    ensures k <= |recvs| && (k < |recvs| ==> recvs[k].pid == dst && recvs[k].src == src)
    ensures forall i :: 0 <= i < k ==> !(recvs[i].pid == dst && recvs[i].src == src)
  {
    if recvs == [] || (recvs[0].pid == dst && recvs[0].src == src) then 0 else 1 + RecvPos(recvs[1..], dst, src)
  }

  function SendPos(sends: seq<PendingSend>, src: nat, dst: nat): (k: nat)
    ensures k <= |sends| && (k < |sends| ==> sends[k].pid == src && sends[k].dst == dst)
    ensures forall i :: 0 <= i < k ==> !(sends[i].pid == src && sends[i].dst == dst)
  {
    if sends == [] || (sends[0].pid == src && sends[0].dst == dst) then 0 else 1 + SendPos(sends[1..], src, dst)
  }

  /** The receive a send by `pid` to `dst` goes to: one that names the sender before one that listens. */
  function Receiver(recvs: seq<PendingRecv>, dst: nat, pid: nat): (k: nat)
    ensures k <= |recvs| && (k < |recvs| ==> recvs[k].pid == dst && recvs[k].src in {pid, ACCEPT_ANY})
    ensures k < |recvs| ==> forall i :: 0 <= i < k ==> !(recvs[i].pid == dst && recvs[i].src == recvs[k].src)
    ensures k == |recvs| || recvs[k].src != pid ==>
              forall i :: 0 <= i < |recvs| ==> !(recvs[i].pid == dst && recvs[i].src == pid)
    ensures k == |recvs| ==> forall i :: 0 <= i < |recvs| ==> !(recvs[i].pid == dst && recvs[i].src == ACCEPT_ANY)
  {
    var k := RecvPos(recvs, dst, pid);
    if k < |recvs| then k else RecvPos(recvs, dst, ACCEPT_ANY)
  }

  function Cut<T>(s: seq<T>, k: nat): (r: seq<T>)
    requires k < |s|
  {
    s[..k] + s[k + 1..]
  }

  /** `send`, after the capability has been resolved to `dst`: the receive it pairs with, if any. */
  function Send(i: Ipc, tid: nat, pid: nat, dst: nat, msg: seq<nat>): (r: (Ipc, Option<PendingRecv>)) {
    var k := Receiver(i.recvs, dst, pid);
    if k < |i.recvs| then (i.(recvs := Cut(i.recvs, k)), Some(i.recvs[k]))
    else (i.(sends := i.sends + [PendingSend(tid, pid, dst, msg)]), None)
  }

  /** `recv` from `src`, which is `ACCEPT_ANY` for an empty slot: the send it pairs with, if any. */
  function Recv(i: Ipc, tid: nat, pid: nat, src: nat): (r: (Ipc, Option<PendingSend>)) {
    var k := SendPos(i.sends, src, pid);
    if k < |i.sends| then (i.(sends := Cut(i.sends, k)), Some(i.sends[k]))
    else (i.(recvs := i.recvs + [PendingRecv(tid, pid, src)]), None)
  }

  // ----- Matching -----

  predicate Matches(s: PendingSend, r: PendingRecv) {
    r.pid == s.dst && r.src == s.pid
  }

  /** No pending send waits beside a receive that names it; process ids are real. */
  ghost predicate Unmatched(i: Ipc) {
    && (forall a, b :: 0 <= a < |i.sends| && 0 <= b < |i.recvs| ==> !Matches(i.sends[a], i.recvs[b]))
    && (forall a :: 0 <= a < |i.sends| ==> i.sends[a].pid != ACCEPT_ANY)
  }

  lemma SendUnmatched(i: Ipc, tid: nat, pid: nat, dst: nat, msg: seq<nat>)
    requires Unmatched(i) && pid != ACCEPT_ANY
    ensures Unmatched(Send(i, tid, pid, dst, msg).0)
  {
    var r := Send(i, tid, pid, dst, msg).0;
    forall a, b | 0 <= a < |r.sends| && 0 <= b < |r.recvs| ensures !Matches(r.sends[a], r.recvs[b]) {
      var k := Receiver(i.recvs, dst, pid);
      if k < |i.recvs| { assert r.recvs[b] == i.recvs[if b < k then b else b + 1]; }
    }
  }

  lemma RecvUnmatched(i: Ipc, tid: nat, pid: nat, src: nat)
    requires Unmatched(i)
    ensures Unmatched(Recv(i, tid, pid, src).0)
  {
    var r := Recv(i, tid, pid, src).0;
    var k := SendPos(i.sends, src, pid);
    if k < |i.sends| {
      assert forall a :: 0 <= a < |r.sends| ==> r.sends[a] == i.sends[if a < k then a else a + 1];
    }
  }

  // ----- A process dies -----

  /** Counterparties that survive `pid`: first those that waited to receive from it, then those sending to it. */
  function LostRecvs(recvs: seq<PendingRecv>, pid: nat): (r: seq<nat>) {
    if recvs == [] then []
    else if recvs[0].src == pid && recvs[0].pid != pid then [recvs[0].tid] + LostRecvs(recvs[1..], pid)
    else LostRecvs(recvs[1..], pid)
  }

  function LostSends(sends: seq<PendingSend>, pid: nat): (r: seq<nat>) {
    if sends == [] then []
    else if sends[0].dst == pid && sends[0].pid != pid then [sends[0].tid] + LostSends(sends[1..], pid)
    else LostSends(sends[1..], pid)
  }

  function KeptRecvs(recvs: seq<PendingRecv>, pid: nat): (r: seq<PendingRecv>)
    ensures forall x :: x in r <==> x in recvs && x.src != pid && x.pid != pid
  {
    if recvs == [] then []
    else if recvs[0].src != pid && recvs[0].pid != pid then [recvs[0]] + KeptRecvs(recvs[1..], pid)
    else KeptRecvs(recvs[1..], pid)
  }

  function KeptSends(sends: seq<PendingSend>, pid: nat): (r: seq<PendingSend>)
    ensures forall x :: x in r <==> x in sends && x.dst != pid && x.pid != pid
  {
    if sends == [] then []
    else if sends[0].dst != pid && sends[0].pid != pid then [sends[0]] + KeptSends(sends[1..], pid)
    else KeptSends(sends[1..], pid)
  }

  /** `purge_process`: new queues, and the threads to be woken with an error. */
  function Purge(i: Ipc, pid: nat): (r: (Ipc, seq<nat>)) {
    (Ipc(KeptSends(i.sends, pid), KeptRecvs(i.recvs, pid)), LostRecvs(i.recvs, pid) + LostSends(i.sends, pid))
  }

  function SendTids(sends: seq<PendingSend>): (r: seq<nat>) {
    if sends == [] then [] else [sends[0].tid] + SendTids(sends[1..])
  }

  function RecvTids(recvs: seq<PendingRecv>): (r: seq<nat>) {
    if recvs == [] then [] else [recvs[0].tid] + RecvTids(recvs[1..])
  }

  /** Entries of the dead process itself. */
  function OwnSends(sends: seq<PendingSend>, pid: nat): (r: seq<nat>) {
    if sends == [] then [] else if sends[0].pid == pid then [sends[0].tid] + OwnSends(sends[1..], pid)
    else OwnSends(sends[1..], pid)
  }

  function OwnRecvs(recvs: seq<PendingRecv>, pid: nat): (r: seq<nat>) {
    if recvs == [] then [] else if recvs[0].pid == pid then [recvs[0].tid] + OwnRecvs(recvs[1..], pid)
    else OwnRecvs(recvs[1..], pid)
  }

  lemma {:induction false} SendsAccounted(sends: seq<PendingSend>, pid: nat, x: nat)
    ensures Count(SendTids(sends), x)
         == Count(SendTids(KeptSends(sends, pid)), x) + Count(LostSends(sends, pid), x) + Count(OwnSends(sends, pid), x)
  {
    if sends != [] {
      var s, t := sends[0], sends[1..];
      SendsAccounted(t, pid, x);
      CountCons(s.tid, SendTids(t), x);
      CountCons(s.tid, OwnSends(t, pid), x);
      CountCons(s.tid, LostSends(t, pid), x);
      CountCons(s.tid, SendTids(KeptSends(t, pid)), x);
      if s.pid != pid && s.dst != pid {
        assert KeptSends(sends, pid)[1..] == KeptSends(t, pid);
      } else {
        assert KeptSends(sends, pid) == KeptSends(t, pid);
      }
    }
  }

  lemma {:induction false} RecvsAccounted(recvs: seq<PendingRecv>, pid: nat, x: nat)
    ensures Count(RecvTids(recvs), x)
         == Count(RecvTids(KeptRecvs(recvs, pid)), x) + Count(LostRecvs(recvs, pid), x) + Count(OwnRecvs(recvs, pid), x)
  {
    if recvs != [] {
      var r, t := recvs[0], recvs[1..];
      RecvsAccounted(t, pid, x);
      CountCons(r.tid, RecvTids(t), x);
      CountCons(r.tid, OwnRecvs(t, pid), x);
      CountCons(r.tid, LostRecvs(t, pid), x);
      CountCons(r.tid, RecvTids(KeptRecvs(t, pid)), x);
      if r.pid != pid && r.src != pid {
        assert KeptRecvs(recvs, pid)[1..] == KeptRecvs(t, pid);
      } else {
        assert KeptRecvs(recvs, pid) == KeptRecvs(t, pid);
      }
    }
  }

  lemma PurgeUnmatched(i: Ipc, pid: nat)
    requires Unmatched(i)
    ensures Unmatched(Purge(i, pid).0)
  {
    var r := Purge(i, pid).0;
    forall a, b | 0 <= a < |r.sends| && 0 <= b < |r.recvs| ensures !Matches(r.sends[a], r.recvs[b]) {
      assert r.sends[a] in i.sends && r.recvs[b] in i.recvs;
    }
    forall a | 0 <= a < |r.sends| ensures r.sends[a].pid != ACCEPT_ANY { assert r.sends[a] in i.sends; }
  }

  /**
    No entry names the dead process any more, and every removed entry that belonged to a surviving
    thread gives exactly one wake-up: remaining, woken and own entries are together the old ones.
  */
  lemma PurgeCleans(i: Ipc, pid: nat)
    ensures var (r, woken) := Purge(i, pid);
            && (forall s :: s in r.sends <==> s in i.sends && s.pid != pid && s.dst != pid)
            && (forall q :: q in r.recvs <==> q in i.recvs && q.pid != pid && q.src != pid)
    ensures var (r, woken) := Purge(i, pid);
            forall x: nat ::
              Count(SendTids(i.sends), x) + Count(RecvTids(i.recvs), x)
              == Count(SendTids(r.sends), x) + Count(RecvTids(r.recvs), x) + Count(woken, x)
                 + Count(OwnSends(i.sends, pid), x) + Count(OwnRecvs(i.recvs, pid), x)
  {
    forall x: nat
      ensures Count(SendTids(i.sends), x) + Count(RecvTids(i.recvs), x)
              == Count(SendTids(KeptSends(i.sends, pid)), x) + Count(RecvTids(KeptRecvs(i.recvs, pid)), x)
                + Count(Purge(i, pid).1, x)
                 + Count(OwnSends(i.sends, pid), x) + Count(OwnRecvs(i.recvs, pid), x)
    {
      SendsAccounted(i.sends, pid, x);
      RecvsAccounted(i.recvs, pid, x);
      CountJoin(LostRecvs(i.recvs, pid), LostSends(i.sends, pid), x);
    }
  }

  // ----- Order of arrival -----

  datatype Packet = Packet(from: nat, to: nat, msg: seq<nat>)

  /** The queues with the history of packets sent and received. */
  datatype Traced = Traced(ipc: Ipc, sent: seq<Packet>, got: seq<Packet>)

  function Between(ps: seq<Packet>, a: nat, b: nat): (r: seq<seq<nat>>) {
    if ps == [] then [] else if ps[0].from == a && ps[0].to == b then [ps[0].msg] + Between(ps[1..], a, b)
    else Between(ps[1..], a, b)
  }

  /** Messages from `a` to `b` that still wait, oldest first. */
  function Queued(sends: seq<PendingSend>, a: nat, b: nat): (r: seq<seq<nat>>) {
    if sends == [] then [] else if sends[0].pid == a && sends[0].dst == b then [sends[0].msg] + Queued(sends[1..], a, b)
    else Queued(sends[1..], a, b)
  }

  ghost predicate InOrder(t: Traced) {
    forall a: nat, b: nat :: Between(t.sent, a, b) == Between(t.got, a, b) + Queued(t.ipc.sends, a, b)
  }

  lemma {:induction false} BetweenJoin(x: seq<Packet>, p: Packet, a: nat, b: nat)
    ensures Between(x + [p], a, b) == Between(x, a, b) + (if p.from == a && p.to == b then [p.msg] else [])
  {
    if x != [] {
      assert (x + [p])[1..] == x[1..] + [p];
      BetweenJoin(x[1..], p, a, b);
    }
  }

  lemma {:induction false} QueuedJoin(x: seq<PendingSend>, p: PendingSend, a: nat, b: nat)
    ensures Queued(x + [p], a, b) == Queued(x, a, b) + (if p.pid == a && p.dst == b then [p.msg] else [])
  {
    if x != [] {
      assert (x + [p])[1..] == x[1..] + [p];
      QueuedJoin(x[1..], p, a, b);
    }
  }

  /** The first send that matches is the oldest message of its pair. */
  lemma {:induction false} QueuedCut(x: seq<PendingSend>, k: nat, a: nat, b: nat)
    requires k < |x| && k == SendPos(x, x[k].pid, x[k].dst)
    ensures Queued(x, a, b) == (if x[k].pid == a && x[k].dst == b then [x[k].msg] else []) + Queued(Cut(x, k), a, b)
  {
    if k == 0 {
      assert Cut(x, 0) == x[1..];
    } else {
      QueuedCut(x[1..], k - 1, a, b);
      assert Cut(x, k)[1..] == Cut(x[1..], k - 1);
    }
  }

  lemma {:induction false} QueuedEmpty(sends: seq<PendingSend>, a: nat, b: nat)
    requires forall i :: 0 <= i < |sends| ==> !(sends[i].pid == a && sends[i].dst == b)
    ensures Queued(sends, a, b) == []
  {
    if sends != [] { QueuedEmpty(sends[1..], a, b); }
  }

  function TracedSend(t: Traced, tid: nat, pid: nat, dst: nat, msg: seq<nat>): (r: Traced) {
    var (ipc, peer) := Send(t.ipc, tid, pid, dst, msg);
    Traced(ipc, t.sent + [Packet(pid, dst, msg)], if peer.Some? then t.got + [Packet(pid, dst, msg)] else t.got)
  }

  function TracedRecv(t: Traced, tid: nat, pid: nat, src: nat): (r: Traced) {
    var (ipc, peer) := Recv(t.ipc, tid, pid, src);
    Traced(ipc, t.sent, if peer.Some? then t.got + [Packet(src, pid, peer.value.msg)] else t.got)
  }

  /** A send that is taken by a listening receive although older messages of the pair wait. */
  predicate Overtakes(i: Ipc, pid: nat, dst: nat, msg: seq<nat>) {
    RecvPos(i.recvs, dst, pid) == |i.recvs| && RecvPos(i.recvs, dst, ACCEPT_ANY) < |i.recvs| &&
    exists m :: m in Queued(i.sends, pid, dst) && m != msg
  }

  lemma {:induction false} Shift(q: seq<seq<nat>>, m: seq<nat>)
    ensures [m] + q == q + [m] <==> forall x :: x in q ==> x == m
  {
    if q != [] {
      Shift(q[1..], m);
      assert q == [q[0]] + q[1..];
      if [m] + q == q + [m] {
        assert ([m] + q)[0] == m && (q + [m])[0] == q[0];
        assert ([m] + q)[1..] == q && (q + [m])[1..] == q[1..] + [m];
      }
      if forall x :: x in q ==> x == m {
        assert q[0] in q && forall x :: x in q[1..] ==> x in q;
      }
    }
  }

  lemma Prepend(g: seq<seq<nat>>, m: seq<nat>, q: seq<seq<nat>>)
    ensures g + q + [m] == g + [m] + q <==> [m] + q == q + [m]
  {
    if g + q + [m] == g + [m] + q {
      assert (g + q + [m])[|g|..] == q + [m] && (g + [m] + q)[|g|..] == [m] + q;
    }
    if [m] + q == q + [m] {
      assert g + q + [m] == g + (q + [m]) && g + [m] + q == g + ([m] + q);
    }
  }

  /** A send keeps the order exactly when it does not overtake. */
  lemma SendInOrder(t: Traced, tid: nat, pid: nat, dst: nat, msg: seq<nat>)
    requires InOrder(t) && Unmatched(t.ipc)
    ensures InOrder(TracedSend(t, tid, pid, dst, msg)) <==> !Overtakes(t.ipc, pid, dst, msg)
  {
    var i, r := t.ipc, TracedSend(t, tid, pid, dst, msg);
    var paired := Receiver(i.recvs, dst, pid) < |i.recvs|;
    var q := Queued(i.sends, pid, dst);
    forall a: nat, b: nat
      ensures Between(r.sent, a, b) == Between(t.sent, a, b) + (if pid == a && dst == b then [msg] else [])
      ensures Between(r.got, a, b) == Between(t.got, a, b) + (if paired && pid == a && dst == b then [msg] else [])
      ensures Queued(r.ipc.sends, a, b) == Queued(i.sends, a, b)
        + (if !paired && pid == a && dst == b then [msg] else [])
    {
      BetweenJoin(t.sent, Packet(pid, dst, msg), a, b);
      BetweenJoin(t.got, Packet(pid, dst, msg), a, b);
      QueuedJoin(i.sends, PendingSend(tid, pid, dst, msg), a, b);
    }
    Shift(q, msg);
    Prepend(Between(t.got, pid, dst), msg, q);
    if RecvPos(i.recvs, dst, pid) < |i.recvs| {
      QueuedEmpty(i.sends, pid, dst);
    }
    assert InOrder(r) <==> (paired ==> [msg] + q == q + [msg]) by { OrderAt(t, r, pid, dst, msg, paired); }
  }

  /** Only the pair of the new message is affected. */
  lemma OrderAt(t: Traced, r: Traced, pid: nat, dst: nat, msg: seq<nat>, paired: bool)
    requires InOrder(t)
    requires forall a: nat, b: nat ::
               && Between(r.sent, a, b) == Between(t.sent, a, b) + (if pid == a && dst == b then [msg] else [])
               && Between(r.got, a, b) == Between(t.got, a, b) + (if paired && pid == a && dst == b then [msg] else [])
               && Queued(r.ipc.sends, a, b) == Queued(t.ipc.sends, a, b)
                  + (if !paired && pid == a && dst == b then [msg] else [])
    ensures InOrder(r) <==> (paired ==> [msg] + Queued(t.ipc.sends, pid, dst) == Queued(t.ipc.sends, pid, dst) + [msg])
  {
    var g, q := Between(t.got, pid, dst), Queued(t.ipc.sends, pid, dst);
    Prepend(g, msg, q);
    assert Between(r.sent, pid, dst) == g + q + [msg];
    if paired {
      assert Between(r.got, pid, dst) + Queued(r.ipc.sends, pid, dst) == g + [msg] + q;
    } else {
      assert g + q + [msg] == g + (q + [msg]);
    }
  }

  /** A receive that names its sender, and a listening one too, keeps the order. */
  lemma RecvInOrder(t: Traced, tid: nat, pid: nat, src: nat)
    requires InOrder(t)
    ensures InOrder(TracedRecv(t, tid, pid, src))
  {
    var r := TracedRecv(t, tid, pid, src);
    var k := SendPos(t.ipc.sends, src, pid);
    if k < |t.ipc.sends| {
      forall a: nat, b: nat ensures Between(r.sent, a, b) == Between(r.got, a, b) + Queued(r.ipc.sends, a, b) {
        QueuedCut(t.ipc.sends, k, a, b);
        BetweenJoin(t.got, Packet(src, pid, t.ipc.sends[k].msg), a, b);
      }
    }
  }

  /** What was received is a prefix, in order, of what was sent. */
  lemma ReceivedIsPrefix(t: Traced, a: nat, b: nat)
    requires InOrder(t)
    ensures Between(t.got, a, b) <= Between(t.sent, a, b)
  {
  }

  /** The history forgets a dead process together with its pending entries. */
  function Forget(ps: seq<Packet>, pid: nat): (r: seq<Packet>) {
    if ps == [] then []
    else if ps[0].from != pid && ps[0].to != pid then [ps[0]] + Forget(ps[1..], pid) else Forget(ps[1..], pid)
  }

  function TracedPurge(t: Traced, pid: nat): (r: Traced) {
    Traced(Purge(t.ipc, pid).0, Forget(t.sent, pid), Forget(t.got, pid))
  }

  lemma {:induction false} ForgetBetween(ps: seq<Packet>, pid: nat, a: nat, b: nat)
    ensures Between(Forget(ps, pid), a, b) == if a == pid || b == pid then [] else Between(ps, a, b)
  {
    if ps != [] {
      ForgetBetween(ps[1..], pid, a, b);
      if ps[0].from != pid && ps[0].to != pid {
        assert Forget(ps, pid)[1..] == Forget(ps[1..], pid);
      } else {
        assert Forget(ps, pid) == Forget(ps[1..], pid);
      }
    }
  }

  lemma {:induction false} KeptQueued(sends: seq<PendingSend>, pid: nat, a: nat, b: nat)
    ensures Queued(KeptSends(sends, pid), a, b) == if a == pid || b == pid then [] else Queued(sends, a, b)
  {
    if sends != [] {
      KeptQueued(sends[1..], pid, a, b);
      if sends[0].dst != pid && sends[0].pid != pid {
        assert KeptSends(sends, pid)[1..] == KeptSends(sends[1..], pid);
      } else {
        assert KeptSends(sends, pid) == KeptSends(sends[1..], pid);
      }
    }
  }

  lemma PurgeInOrder(t: Traced, pid: nat)
    requires InOrder(t)
    ensures InOrder(TracedPurge(t, pid))
  {
    forall a: nat, b: nat
      ensures Between(Forget(t.sent, pid), a, b) == Between(Forget(t.got, pid), a, b)
        + Queued(KeptSends(t.ipc.sends, pid), a, b)
    {
      ForgetBetween(t.sent, pid, a, b);
      ForgetBetween(t.got, pid, a, b);
      KeptQueued(t.ipc.sends, pid, a, b);
    }
  }

  /** Process 2 listens although a message from process 1 waits; what process 1 sends next arrives first. */
  lemma OvertakingExample(t: Traced)
    requires t == Traced(Ipc([PendingSend(10, 1, 2, [111])], [PendingRecv(20, 2, ACCEPT_ANY)]),
                         [Packet(1, 2, [111])], [])
    ensures InOrder(t) && Overtakes(t.ipc, 1, 2, [222]) && !InOrder(TracedSend(t, 11, 1, 2, [222]))
  {
    var first: seq<nat>, second: seq<nat> := [111], [222];
    assert first in Queued(t.ipc.sends, 1, 2) && first[0] != second[0];
    SendInOrder(t, 11, 1, 2, second);
  }

  // ----- Whole runs -----

  datatype Act = DoSend(tid: nat, pid: nat, dst: nat, msg: seq<nat>) | DoRecv(tid: nat, pid: nat, src: nat)
    | DoPurge(pid: nat)

  function TraceStep(t: Traced, a: Act): (r: Traced) {
    match a
    case DoSend(tid, pid, dst, msg) => TracedSend(t, tid, pid, dst, msg)
    case DoRecv(tid, pid, src) => TracedRecv(t, tid, pid, src)
    case DoPurge(pid) => TracedPurge(t, pid)
  }

  function TraceRun(t: Traced, acts: seq<Act>): (r: Traced)
    decreases |acts|
  {
    if acts == [] then t else TraceRun(TraceStep(t, acts[0]), acts[1..])
  }

  /** Process ids are real ones, and receives name their sender. */
  predicate Specific(a: Act) {
    match a
    case DoSend(_, pid, _, _) => pid != ACCEPT_ANY
    case DoRecv(_, _, src) => src != ACCEPT_ANY
    case DoPurge(_) => true
  }

  ghost predicate NoListener(i: Ipc) {
    forall k :: 0 <= k < |i.recvs| ==> i.recvs[k].src != ACCEPT_ANY
  }

  lemma TraceStepKeeps(t: Traced, a: Act)
    requires InOrder(t) && Unmatched(t.ipc) && NoListener(t.ipc) && Specific(a)
    ensures var r := TraceStep(t, a); InOrder(r) && Unmatched(r.ipc) && NoListener(r.ipc)
  {
    match a
    case DoSend(tid, pid, dst, msg) =>
      SendInOrder(t, tid, pid, dst, msg);
      SendUnmatched(t.ipc, tid, pid, dst, msg);
    case DoRecv(tid, pid, src) =>
      RecvInOrder(t, tid, pid, src);
      RecvUnmatched(t.ipc, tid, pid, src);
    case DoPurge(pid) =>
      PurgeInOrder(t, pid);
      PurgeUnmatched(t.ipc, pid);
      var r := TraceStep(t, a);
      forall k | 0 <= k < |r.ipc.recvs| ensures r.ipc.recvs[k].src != ACCEPT_ANY {
        assert r.ipc.recvs[k] in t.ipc.recvs;
      }
  }

  /** With receives that name their sender, what each pair received is at all times a prefix of what was sent. */
  lemma {:induction false} RunReceivesInOrder(t: Traced, acts: seq<Act>, a: nat, b: nat)
    requires InOrder(t) && Unmatched(t.ipc) && NoListener(t.ipc) && forall k :: 0 <= k < |acts| ==> Specific(acts[k])
    ensures var r := TraceRun(t, acts); Between(r.got, a, b) <= Between(r.sent, a, b) && Unmatched(r.ipc)
    decreases |acts|
  {
    if acts != [] {
      TraceStepKeeps(t, acts[0]);
      RunReceivesInOrder(TraceStep(t, acts[0]), acts[1..], a, b);
    }
  }
}
