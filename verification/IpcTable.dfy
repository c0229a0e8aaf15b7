/** The IPC object: the two pending queues, updated in place under the IPC lock. */
module IpcObject {
  import opened Common
  import opened IpcModel

  const EINVAL: nat := 0xFFFF_FFFF_FFFF_FFFF
  const EACCES: nat := 0xFFFF_FFFF_FFFF_FFFE

  /** What the capability in the caller's slot turns out to be. */
  datatype Target = ToProcess(pid: nat) | OtherKind | EmptySlot | BadSlot

  datatype SendResult = SendPaired(receiver: nat) | SendWaits | SendFails(code: nat)
  datatype RecvResult = RecvPaired(sender: nat, msg: seq<nat>) | RecvWaits | RecvFails(code: nat)

  class IpcTable {
    var sends: seq<PendingSend>
    var recvs: seq<PendingRecv>

    function St(): (i: Ipc)
      reads this
    {
      Ipc(sends, recvs)
    }

    constructor ()
      ensures St() == Ipc([], [])
    {
      sends, recvs := [], [];
    }

    /** Position of the first receive by `dst` that names `src`. */
    method FindRecv(dst: nat, src: nat) returns (k: nat)
      ensures k == RecvPos(recvs, dst, src)
    {
      k := 0;
      while k < |recvs|
        invariant k <= |recvs| && forall i :: 0 <= i < k ==> !(recvs[i].pid == dst && recvs[i].src == src)
      {
        if recvs[k].pid == dst && recvs[k].src == src {
          return;
        }
        k := k + 1;
      }
    }

    method FindSend(src: nat, dst: nat) returns (k: nat)
      ensures k == SendPos(sends, src, dst)
    {
      k := 0;
      while k < |sends|
        invariant k <= |sends| && forall i :: 0 <= i < k ==> !(sends[i].pid == src && sends[i].dst == dst)
      {
        if sends[k].pid == src && sends[k].dst == dst {
          return;
        }
        k := k + 1;
      }
    }

    /** `send` up to the point where it releases the lock; a failed lookup touches nothing. */
    method Send(tid: nat, pid: nat, target: Target, msg: seq<nat>) returns (r: SendResult)
      modifies this
      ensures !target.ToProcess? ==> St() == old(St()) && r == SendFails(if target == EmptySlot then EACCES else EINVAL)
      ensures target.ToProcess? ==>
                var (i, peer) := IpcModel.Send(old(St()), tid, pid, target.pid, msg);
                St() == i && r == if peer.Some? then SendPaired(peer.value.tid) else SendWaits
    {
      match target
      case OtherKind => return SendFails(EINVAL);
      case BadSlot => return SendFails(EINVAL);
      case EmptySlot => return SendFails(EACCES);
      case ToProcess(dst) =>
        var pos := FindRecv(dst, pid);
        if pos == |recvs| {
          pos := FindRecv(dst, ACCEPT_ANY);
        }
        if pos < |recvs| {
          var peer := recvs[pos];
          recvs := recvs[..pos] + recvs[pos + 1..];
          return SendPaired(peer.tid);
        }
        sends := sends + [PendingSend(tid, pid, dst, msg)];
        return SendWaits;
    }

    /** `recv` up to the point where it releases the lock; an empty slot listens. */
    method Recv(tid: nat, pid: nat, target: Target) returns (r: RecvResult)
      modifies this
      ensures target in {OtherKind, BadSlot} ==> St() == old(St()) && r == RecvFails(EINVAL)
      ensures target !in {OtherKind, BadSlot} ==>
                var src := if target == EmptySlot then ACCEPT_ANY else target.pid;
                var (i, peer) := IpcModel.Recv(old(St()), tid, pid, src);
                St() == i && r == if peer.Some? then RecvPaired(peer.value.tid, peer.value.msg) else RecvWaits
    {
      if target == OtherKind || target == BadSlot {
        return RecvFails(EINVAL);
      }
      var src := if target == EmptySlot then ACCEPT_ANY else target.pid;
      var pos := FindSend(src, pid);
      if pos < |sends| {
        var peer := sends[pos];
        sends := sends[..pos] + sends[pos + 1..];
        return RecvPaired(peer.tid, peer.msg);
      }
      recvs := recvs + [PendingRecv(tid, pid, src)];
      return RecvWaits;
    }

    /** `purge_process` up to the point where it releases the lock: the threads to wake with an error. */
    method PurgeProcess(pid: nat) returns (woken: seq<nat>)
      modifies this
      ensures (St(), woken) == Purge(old(St()), pid)
    {
      RecvsPasses(recvs, pid);
      SendsPasses(sends, pid);
      var w0 := DropRecvs(pid);
      var w1 := DropSends(pid);
      woken := w0 + w1;
      DropOwnSends(pid);
      DropOwnRecvs(pid);
    }

    method DropRecvs(pid: nat) returns (woken: seq<nat>)
      modifies this`recvs
      ensures recvs == NotFrom(old(recvs), pid) && woken == LostRecvs(old(recvs), pid)
    {
      woken := [];
      var kept: seq<PendingRecv> := [];
      var i: nat := 0;
      while i < |recvs|
        invariant i <= |recvs| && recvs == old(recvs)
        invariant kept == NotFrom(recvs[..i], pid) && woken == LostRecvs(recvs[..i], pid)
      {
        var r := recvs[i];
        assert recvs[..i + 1] == recvs[..i] + [r];
        RecvsSnoc(recvs[..i], r, pid);
        if r.src == pid {
          if r.pid != pid {
            woken := woken + [r.tid];
          }
        } else {
          kept := kept + [r];
        }
        i := i + 1;
      }
      assert recvs[..i] == recvs;
      recvs := kept;
    }

    method DropSends(pid: nat) returns (woken: seq<nat>)
      modifies this`sends
      ensures sends == NotTo(old(sends), pid) && woken == LostSends(old(sends), pid)
    {
      woken := [];
      var kept: seq<PendingSend> := [];
      var i: nat := 0;
      while i < |sends|
        invariant i <= |sends| && sends == old(sends)
        invariant kept == NotTo(sends[..i], pid) && woken == LostSends(sends[..i], pid)
      {
        var s := sends[i];
        assert sends[..i + 1] == sends[..i] + [s];
        SendsSnoc(sends[..i], s, pid);
        if s.dst == pid {
          if s.pid != pid {
            woken := woken + [s.tid];
          }
        } else {
          kept := kept + [s];
        }
        i := i + 1;
      }
      assert sends[..i] == sends;
      sends := kept;
    }

    method DropOwnSends(pid: nat)
      modifies this`sends
      ensures sends == NotSentBy(old(sends), pid)
    {
      var kept: seq<PendingSend> := [];
      var i: nat := 0;
      while i < |sends|
        invariant i <= |sends| && sends == old(sends) && kept == NotSentBy(sends[..i], pid)
      {
        assert sends[..i + 1] == sends[..i] + [sends[i]];
        SendsSnoc(sends[..i], sends[i], pid);
        if sends[i].pid != pid {
          kept := kept + [sends[i]];
        }
        i := i + 1;
      }
      assert sends[..i] == sends;
      sends := kept;
    }

    method DropOwnRecvs(pid: nat)
      modifies this`recvs
      ensures recvs == NotAwaitedBy(old(recvs), pid)
    {
      var kept: seq<PendingRecv> := [];
      var i: nat := 0;
      while i < |recvs|
        invariant i <= |recvs| && recvs == old(recvs) && kept == NotAwaitedBy(recvs[..i], pid)
      {
        assert recvs[..i + 1] == recvs[..i] + [recvs[i]];
        RecvsSnoc(recvs[..i], recvs[i], pid);
        if recvs[i].pid != pid {
          kept := kept + [recvs[i]];
        }
        i := i + 1;
      }
      assert recvs[..i] == recvs;
      recvs := kept;
    }
  }

  /** What the pass over `recvs` for counterparties leaves. */
  function NotFrom(recvs: seq<PendingRecv>, pid: nat): (r: seq<PendingRecv>) {
    if recvs == [] then [] else if recvs[0].src != pid then [recvs[0]] + NotFrom(recvs[1..], pid)
    else NotFrom(recvs[1..], pid)
  }

  /** What the pass over `recvs` for the dead process's own entries leaves. */
  function NotAwaitedBy(recvs: seq<PendingRecv>, pid: nat): (r: seq<PendingRecv>) {
    if recvs == [] then [] else if recvs[0].pid != pid then [recvs[0]] + NotAwaitedBy(recvs[1..], pid)
    else NotAwaitedBy(recvs[1..], pid)
  }

  lemma {:induction false} RecvsSnoc(q: seq<PendingRecv>, x: PendingRecv, pid: nat)
    ensures LostRecvs(q + [x], pid) == LostRecvs(q, pid) + if x.src == pid && x.pid != pid then [x.tid] else []
    ensures NotFrom(q + [x], pid) == NotFrom(q, pid) + if x.src == pid then [] else [x]
    ensures NotAwaitedBy(q + [x], pid) == NotAwaitedBy(q, pid) + if x.pid == pid then [] else [x]
  {
    if q == [] {
      assert q + [x] == [x];
    } else {
      assert (q + [x])[1..] == q[1..] + [x] && (q + [x])[0] == q[0];
      RecvsSnoc(q[1..], x, pid);
    }
  }

  /** The two passes together leave what no part of the dead process is in. */
  lemma {:induction false} RecvsPasses(q: seq<PendingRecv>, pid: nat)
    ensures NotAwaitedBy(NotFrom(q, pid), pid) == KeptRecvs(q, pid)
  {
    if q != [] {
      RecvsPasses(q[1..], pid);
      if q[0].src != pid {
        var n := NotFrom(q, pid);
        assert n[0] == q[0] && n[1..] == NotFrom(q[1..], pid);
      }
    }
  }

  /** What the pass over `sends` for counterparties leaves. */
  function NotTo(sends: seq<PendingSend>, pid: nat): (r: seq<PendingSend>) {
    if sends == [] then [] else if sends[0].dst != pid then [sends[0]] + NotTo(sends[1..], pid)
    else NotTo(sends[1..], pid)
  }

  /** What the pass over `sends` for the dead process's own entries leaves. */
  function NotSentBy(sends: seq<PendingSend>, pid: nat): (r: seq<PendingSend>) {
    if sends == [] then [] else if sends[0].pid != pid then [sends[0]] + NotSentBy(sends[1..], pid)
    else NotSentBy(sends[1..], pid)
  }

  lemma {:induction false} SendsSnoc(q: seq<PendingSend>, x: PendingSend, pid: nat)
    ensures LostSends(q + [x], pid) == LostSends(q, pid) + if x.dst == pid && x.pid != pid then [x.tid] else []
    ensures NotTo(q + [x], pid) == NotTo(q, pid) + if x.dst == pid then [] else [x]
    ensures NotSentBy(q + [x], pid) == NotSentBy(q, pid) + if x.pid == pid then [] else [x]
  {
    if q == [] {
      assert q + [x] == [x];
    } else {
      assert (q + [x])[1..] == q[1..] + [x] && (q + [x])[0] == q[0];
      SendsSnoc(q[1..], x, pid);
    }
  }

  /** The two passes together leave what no part of the dead process is in. */
  lemma {:induction false} SendsPasses(q: seq<PendingSend>, pid: nat)
    ensures NotSentBy(NotTo(q, pid), pid) == KeptSends(q, pid)
  {
    if q != [] {
      SendsPasses(q[1..], pid);
      if q[0].dst != pid {
        var n := NotTo(q, pid);
        assert n[0] == q[0] && n[1..] == NotTo(q[1..], pid);
      }
    }
  }
}
