/** The scheduler object: its methods update the tables in place and compute the steps of the model. */
module SchedulerObject {
  import opened Common
  import opened ReadyQueues
  import opened SchedModel
  import opened SchedPick
  import opened SchedDonations
  import opened SchedSteps
  import opened SchedWake
  import opened SchedTick

  class Scheduler {
    var threads: seq<Thread>
    var ready: ReadyTable
    var donations: seq<Donation>
    var current: seq<nat>
    var idle: seq<nat>
    var ticks: seq<nat>
    var freeSlots: seq<nat>
    ghost var latest: seq<Latest>

    ghost function St(): (s: Sched)
      reads this
    {
      Sched(threads, ready, donations, current, idle, ticks, freeSlots, latest)
    }

    /** What the primitive operations need: tables of the right size, and queues that hold ready threads only. */
    ghost predicate Usable()
      reads this
    {
      var sized, exist := Sized(St()), QueuedExist(St());
      sized && exist && forall h, l, i :: 0 <= h < MAX_HARTS && 0 <= l < PRIO_LEVELS && 0 <= i < |ready[h][l]| ==>
        threads[ready[h][l][i]].state == Ready
    }

    /** `init` */
    constructor (frame: seq<nat>, ctx: Context)
      requires |frame| == FRAME_WORDS && |ctx.s| == 12
      ensures Inv(St()) && St() == BootSched(frame, ctx)
    {
      ready := seq(MAX_HARTS, h => seq(PRIO_LEVELS, l => []));
      donations, freeSlots := [], [];
      ticks := seq(MAX_HARTS, h => 0);
      latest := seq(MAX_HARTS, h => FromCtx(ctx));
      threads, current, idle := [], [], [];
      new;
      var h := 0;
      while h < MAX_HARTS
        invariant 0 <= h <= MAX_HARTS && |threads| == |current| == |idle| == h
        invariant forall g :: 0 <= g < h ==> threads[g] == IdleThread(frame, ctx, g) && current[g] == g == idle[g]
        invariant St() == BootSched(frame, ctx).(threads := threads, current := current, idle := idle)
      {
        var id := |threads|;
        threads := threads + [IdleThread(frame, ctx, h)];
        current := current + [id];
        idle := idle + [id];
        h := h + 1;
      }
      assert threads == BootSched(frame, ctx).threads && current == BootSched(frame, ctx).current;
      assert idle == BootSched(frame, ctx).idle;
      BootSchedInv(frame, ctx);
    }

    /** `eff_prio` */
    method EffPrio(id: nat) returns (p: nat)
      requires id < |threads|
      ensures p == Eff(threads[id], donations)
    {
      p := threads[id].prio;
      if threads[id].proc.Some? {
        var proc := threads[id].proc.value;
        var i := 0;
        while i < |donations|
          invariant 0 <= i <= |donations|
          invariant Boost(p, proc, donations[i..]) == Eff(threads[id], donations)
        {
          var d := donations[i];
          assert donations[i..][0] == d && donations[i..][1..] == donations[i + 1..];
          if d.peer == proc && d.prio < p {
            p := d.prio;
          }
          i := i + 1;
        }
      }
    }

    /** `enqueue` */
    method Enqueue(id: nat)
      requires id < |threads| && ThreadOk(threads[id]) && Shaped(ready)
      modifies this`ready, this`threads
      ensures St() == SchedModel.Enqueue(old(St()), id)
    {
      var prio := EffPrio(id);
      var h := threads[id].hart;
      ready := Put(ready, h, prio, ready[h][prio] + [id]);
      threads := threads[id := threads[id].(state := Ready)];
    }

    /** `remove_from_ready` */
    method RemoveFromReady(id: nat)
      requires id < |threads| && ThreadOk(threads[id]) && Shaped(ready)
      modifies this`ready
      ensures var h := threads[id].hart; ready == old(ready)[h := RemoveFrom(old(ready)[h], id)]
    {
      var h := threads[id].hart;
      var qs := ready[h];
      var l := 0;
      while l < |qs|
        invariant 0 <= l <= |qs| && ready == old(ready)
        invariant forall i :: 0 <= i < l ==> id !in qs[i]
      {
        var pos := Position(qs[l], id);
        if pos < |qs[l]| {
          RemovedAt(qs[l], id, pos);
          RemoveFromAt(qs, id, l);
          ready := ready[h := qs[l := qs[l][..pos] + qs[l][pos + 1..]]];
          return;
        }
        l := l + 1;
      }
      RemoveFromNone(qs, id);
    }

    /** Index of the first occurrence of `id` in `q`, or the length. */
    static method Position(q: seq<nat>, id: nat) returns (pos: nat)
      ensures pos <= |q| && id !in q[..pos] && (pos < |q| ==> q[pos] == id) && (pos == |q| ==> id !in q)
    {
      pos := 0;
      while pos < |q|
        invariant pos <= |q| && id !in q[..pos]
      {
        if q[pos] == id { return; }
        pos := pos + 1;
      }
    }

    /** `pick_next` */
    method PickNext(hart: nat, needCtx: bool) returns (next: nat)
      requires Usable() && hart < MAX_HARTS
      modifies this`ready, this`threads
      ensures (St(), next) == Pick(old(St()), hart, needCtx, 0)
    {
      var level := 0;
      while level < PRIO_LEVELS
        invariant 0 <= level <= PRIO_LEVELS && St() == old(St())
        invariant Pick(old(St()), hart, needCtx, 0) == Pick(old(St()), hart, needCtx, level)
      {
        var found, id := ScanLevel(hart, level, needCtx);
        if found {
          return id;
        }
        level := level + 1;
      }
      if threads[current[hart]].state != Running {
        next := idle[hart];
      } else {
        next := current[hart];
      }
    }

    /** One level of `pick_next`: threads that do not qualify go to the back of their queue. */
    method ScanLevel(hart: nat, level: nat, needCtx: bool) returns (found: bool, id: nat)
      requires Usable() && hart < MAX_HARTS && level < PRIO_LEVELS
      modifies this`ready, this`threads
      ensures var s, q := old(St()), old(ready[hart][level]);
              var k := FirstPick(s.threads, q, needCtx);
              && found == (k < |q|)
              && (found ==> id == q[k] && St() == TakeOut(s, hart, level, k))
              && (!found ==> St() == s)
    {
      found, id := false, 0;
      var q := ready[hart][level];
      var j := 0;
      assert q[0..] + q[..0] == q;
      PutSame(ready, hart, level);
      while j < |q|
        invariant 0 <= j <= |q|
        invariant ready == Put(old(ready), hart, level, q[j..] + q[..j]) && threads == old(threads)
        invariant forall i :: 0 <= i < j ==> !Pickable(threads[q[i]], needCtx)
      {
        var front := ready[hart][level][0];
        assert front == q[j];
        ready := Put(ready, hart, level, ready[hart][level][1..]);
        assert (q[j..] + q[..j])[1..] == q[j + 1..] + q[..j];
        PutTwice(old(ready), hart, level, q[j..] + q[..j], q[j + 1..] + q[..j]);
        if threads[front].state == Ready {
          var ok := threads[front].frameValid || (threads[front].ctxValid && (needCtx || threads[front].woken));
          if ok {
            FirstPickIs(threads, q, needCtx, j);
            threads := threads[front := threads[front].(state := Running)];
            return true, front;
          }
          ready := Put(ready, hart, level, ready[hart][level] + [front]);
          assert q[j + 1..] + q[..j] + [front] == q[j + 1..] + q[..j + 1];
          PutTwice(old(ready), hart, level, q[j + 1..] + q[..j], q[j + 1..] + q[..j + 1]);
        }
        j := j + 1;
      }
      assert q[|q|..] + q[..|q|] == q;
      FirstPickIs(threads, q, needCtx, j);
    }

    /** One queue of `requeue_proc_threads`: the threads of process `p` go to the buffer. */
    method Retain(q: seq<nat>, p: nat, buf: array<nat>, n: nat) returns (kept: seq<nat>, n': nat)
      requires (forall i :: 0 <= i < |q| ==> q[i] < |threads|) && n + |In(q, OfProc(threads, p))| <= buf.Length
      modifies buf
      ensures kept == Out(q, OfProc(threads, p)) && n' == n + |In(q, OfProc(threads, p))|
      ensures buf[..n'] == old(buf[..n]) + In(q, OfProc(threads, p))
    {
      ghost var m := OfProc(threads, p);
      kept, n' := [], n;
      var i := 0;
      while i < |q|
        invariant 0 <= i <= |q| && n <= n' && n' + |In(q[i..], m)| == n + |In(q, m)|
        invariant kept + Out(q[i..], m) == Out(q, m)
        invariant buf[..n'] + In(q[i..], m) == old(buf[..n]) + In(q, m)
      {
        assert q[i..][0] == q[i] && q[i..][1..] == q[i + 1..];
        if threads[q[i]].proc == Some(p) {
          if n' < buf.Length {
            buf[n'] := q[i];
            assert buf[..n' + 1] == buf[..n'] + [q[i]];
            n' := n' + 1;
          }
        } else {
          kept := kept + [q[i]];
        }
        i := i + 1;
      }
    }

    /** The collecting loops of `requeue_proc_threads`. */
    method Collect(p: nat, buf: array<nat>, ghost before: seq<Place>) returns (n: nat)
      requires Queues(before, ready) && |before| == |threads| <= buf.Length && QueuedExist(St())
      modifies this`ready, buf
      ensures n <= buf.Length && buf[..n] == Gather(old(ready), OfProc(threads, p), MAX_HARTS, 0)
      ensures ready == Strip(old(ready), OfProc(threads, p))
    {
      ghost var m, r0 := OfProc(threads, p), ready;
      n := 0;
      var h := 0;
      StripEnds(r0, m, 0);
      while h < MAX_HARTS
        invariant 0 <= h <= MAX_HARTS && n <= buf.Length && buf[..n] == Gather(r0, m, h, 0)
        invariant ready == StripTo(r0, m, h, 0)
      {
        var l := 0;
        while l < PRIO_LEVELS
          invariant 0 <= l <= PRIO_LEVELS && n <= buf.Length && buf[..n] == Gather(r0, m, h, l)
          invariant ready == StripTo(r0, m, h, l)
        {
          GatherFits(before, r0, m, h, l + 1);
          StripStep(r0, m, h, l);
          var kept, n' := Retain(ready[h][l], p, buf, n);
          ready := Put(ready, h, l, kept);
          n := n';
          l := l + 1;
        }
        StripEnds(r0, m, h);
        h := h + 1;
      }
    }

    /** `requeue_proc_threads`; `before` is where the threads were when the queues were last right. */
    method RequeueProcThreads(p: nat, ghost before: seq<Place>)
      requires Queues(before, ready) && |before| == |threads| <= MAX_THREADS && QueuedExist(St())
      requires Requeueable(St(), p)
      modifies this`ready, this`threads
      ensures St() == RequeueProc(old(St()), p)
    {
      var buf := new nat[MAX_THREADS];
      var n := Collect(p, buf, before);
      assert forall i :: 0 <= i < n ==> buf[i] == buf[..n][i] && buf[..n][i] in buf[..n];
      EnqueueAll(buf, n);
    }

    method EnqueueAll(buf: array<nat>, n: nat)
      requires n <= buf.Length && Shaped(ready) && forall i :: 0 <= i < n ==> CanQueue(threads, buf[i])
      modifies this`ready, this`threads
      ensures threads == old(threads) && ready == old(PushReady(ready, threads, donations, buf[..n]))
    {
      ghost var ids := buf[..n];
      ghost var result := PushReady(ready, threads, donations, ids);
      var k := 0;
      assert ids[0..] == ids;
      while k < n
        invariant 0 <= k <= n && Shaped(ready) && threads == old(threads)
        invariant PushReady(ready, threads, donations, ids[k..]) == result
      {
        assert ids[k..][0] == buf[k] && ids[k..][1..] == ids[k + 1..];
        Enqueue(buf[k]);
        assert threads == old(threads);
        k := k + 1;
      }
    }

    /** `register_donation` */
    method RegisterDonation(donor: nat, peer: nat)
      requires Inv(St()) && donor < |threads|
      modifies this`ready, this`threads, this`donations
      ensures St() == Register(old(St()), donor, peer)
    {
      ghost var s := St();
      QueuedAreThreads(s);
      var prio := EffPrio(donor);
      var found := Replace(Donation(donor, peer, prio));
      if !found && |donations| < MAX_DONATIONS {
        donations := donations + [Donation(donor, peer, prio)];
      }
      StillRequeueable(s, donations, peer);
      RequeueProcThreads(peer, Places(s.threads, s.donations));
    }

    /** The loop of `register_donation`: an entry of the same donor is overwritten. */
    method Replace(d: Donation) returns (found: bool)
      modifies this`donations
      ensures var e := EntryOf(old(donations), d.donor);
              && found == (e < |old(donations)|)
              && donations == if found then old(donations)[e := d] else old(donations)
    {
      found := false;
      var i := 0;
      while i < |donations|
        invariant 0 <= i <= |donations| && donations == old(donations)
        invariant forall j :: 0 <= j < i ==> donations[j].donor != d.donor
      {
        if donations[i].donor == d.donor {
          donations := donations[i := d];
          return true;
        }
        i := i + 1;
      }
    }

    /** `revoke_donations` */
    method RevokeDonations(donor: nat)
      requires Inv(St())
      modifies this`ready, this`threads, this`donations
      ensures St() == Revoke(old(St()), donor)
    {
      ghost var s := St();
      QueuedAreThreads(s);
      var kept, affected := Withdraw(donor);
      donations := kept;
      if EntryOf(s.donations, donor) < |s.donations| {
        RevokeInv(s, donor, EntryOf(s.donations, donor));
      }
      var k := 0;
      while k < |affected|
        invariant 0 <= k <= |affected| <= 1
        invariant k == 0 ==> St() == s.(donations := kept)
        invariant k == 1 ==> St() == Revoke(s, donor)
      {
        RequeueProcThreads(affected[k], Places(s.threads, s.donations));
        k := k + 1;
      }
    }

    /** The retain loop of `revoke_donations`: what stays, and the processes that lose a donation. */
    method Withdraw(donor: nat) returns (kept: seq<Donation>, affected: seq<nat>)
      requires DonationsOk(|threads|, donations)
      ensures var e := EntryOf(donations, donor);
              if e == |donations| then kept == donations && affected == []
              else kept == Dropped(donations, e) && affected == [donations[e].peer]
    {
      ghost var e := EntryOf(donations, donor);
      kept, affected := [], [];
      var i := 0;
      while i < |donations|
        invariant 0 <= i <= |donations|
        invariant if i <= e then kept == donations[..i] && affected == []
                  else kept == donations[..e] + donations[e + 1..i] && affected == [donations[e].peer]
      {
        if donations[i].donor == donor {
          assert i == e;
          if donations[i].peer !in affected {
            affected := affected + [donations[i].peer];
          }
        } else {
          kept := kept + [donations[i]];
        }
        i := i + 1;
      }
      assert donations[..|donations|] == donations;
    }

    /** Resetting the slice, picking the next thread and making it current, as every cooperative path does. */
    method Leave(h: nat) returns (o: Outcome)
      requires h < MAX_HARTS && InvBut(St(), h) && threads[current[h]].state != Running
      modifies this`ready, this`threads, this`ticks, this`current
      ensures (St(), o) == SwitchAway(old(St()), h)
    {
      ghost var s := St();
      ticks := ticks[h := 0];
      TicksInv(s, h, h, 0);
      QueuedAreThreads(St());
      var next := PickNext(h, true);
      current := current[h := next];
      o := Switched(next, Restore(threads[next]));
    }

    /** `yield_` */
    method Yield(h: nat, regs: Context) returns (o: Outcome)
      requires Inv(St()) && h < MAX_HARTS && !threads[current[h]].user && |regs.s| == 12
      modifies this
      ensures (St(), o) == SchedSteps.Yield(old(St()), h, regs)
    {
      ghost var s := St();
      var cur := current[h];
      ghost var t := threads[cur].(ctx := regs, frameValid := false, ctxValid := true, state := Ready);
      threads := threads[cur := threads[cur].(ctx := regs, frameValid := false, ctxValid := true)];
      latest := latest[cur := FromCtx(regs)];
      Enqueue(cur);
      assert St() == Queue(s, cur, t, FromCtx(regs));
      QueueInv(s, -1, h, cur, t, FromCtx(regs));
      o := Leave(h);
    }

    /** `block_current`, up to the switch */
    method BlockCurrent(h: nat, regs: Context) returns (o: Outcome)
      requires Inv(St()) && h < MAX_HARTS && !threads[current[h]].user && current[h] != idle[h] && |regs.s| == 12
      modifies this
      ensures (St(), o) == SchedSteps.BlockCurrent(old(St()), h, regs)
    {
      ghost var s := St();
      var cur := current[h];
      if threads[cur].ipcWake != NoWake {
        SetInv(s, -1, -1, cur, threads[cur].(ipcWake := NoWake), latest[cur]);
        threads := threads[cur := threads[cur].(ipcWake := NoWake, state := Running)];
        assert St() == SetTo(s, cur, s.threads[cur].(ipcWake := NoWake), latest[cur]);
        RevokeDonations(cur);
        return Stay;
      }
      if threads[cur].woken {
        threads := threads[cur := threads[cur].(woken := false, state := Running)];
        assert St() == SetTo(s, cur, s.threads[cur].(woken := false), latest[cur]);
        return Stay;
      }
      ghost var t := Parked(threads[cur], regs);
      SetInv(s, -1, h, cur, t, FromCtx(regs));
      threads := threads[cur := threads[cur].(ctx := regs, frameValid := false, ctxValid := true, state := Blocked)];
      latest := latest[cur := FromCtx(regs)];
      assert St() == SetTo(s, cur, t, FromCtx(regs));
      o := Leave(h);
    }

    /** The end of `block_current`, when the thread runs again: taking it off a queue it is not in changes nothing. */
    method AfterBlock(h: nat)
      requires Inv(St()) && h < MAX_HARTS
      modifies this`ready, this`threads
      ensures St() == SchedSteps.AfterBlock(old(St()), h)
    {
      var cur := current[h];
      NotQueued(St(), cur);
      RemoveFromReady(cur);
      threads := threads[cur := threads[cur].(woken := false)];
      assert latest[cur := latest[cur]] == latest;
    }

    /** `exit`, `exit_from_trap` */
    method Exit(h: nat, regs: Context) returns (o: Outcome)
      requires Inv(St()) && h < MAX_HARTS && current[h] != idle[h] && |regs.s| == 12
      modifies this
      ensures (St(), o) == SchedSteps.Exit(old(St()), h, regs)
    {
      ghost var s := St();
      var cur := current[h];
      ExitLeaves(s, h, regs);
      threads := threads[cur := threads[cur].(state := Exited, frameValid := false, ctxValid := true, ctx := regs)];
      freeSlots := freeSlots + [cur];
      assert latest[cur := latest[cur]] == latest;
      assert St() == Left(s, h, regs);
      o := Leave(h);
    }

    /** `wake` */
    method Wake(id: nat)
      requires Inv(St())
      modifies this`ready, this`threads
      ensures St() == SchedSteps.Wake(old(St()), id)
    {
      if id < |threads| {
        threads := threads[id := threads[id].(woken := true)];
        assert latest[id := latest[id]] == latest;
        if threads[id].state == Blocked {
          Enqueue(id);
        }
      }
    }

    /** `ipc_wake_with_msg` and `ipc_wake_with_err` */
    method IpcWake(tid: nat, d: Delivery)
      requires Inv(St()) && CanServe(St(), tid, d)
      modifies this
      ensures St() == Deliver(old(St()), tid, d)
    {
      if threads[tid].state != Blocked {
        threads := threads[tid := threads[tid].(ipcMsg := Some(EarlyMail(d)), ipcWake := Kept(d))];
        assert latest[tid := latest[tid]] == latest;
        return;
      }
      ServedInv(St(), tid, d);
      Serve(tid, d);
      RevokeDonations(tid);
    }

    /** The result goes into the frame and the mailbox of a blocked thread, which is queued. */
    method Serve(tid: nat, d: Delivery)
      requires Inv(St()) && CanServe(St(), tid, d) && threads[tid].state == Blocked
      modifies this
      ensures var s := old(St());
              St() == Queue(s, tid, Served(s.threads[tid], d), ServedFrom(s.threads[tid], d, s.latest[tid]))
    {
      ghost var s := St();
      var frame := Written(threads[tid].frame, d);
      threads := threads[tid := threads[tid].(frame := frame, ipcMsg := Mail(d), ipcWake := NoWake)];
      latest := latest[tid := ServedFrom(s.threads[tid], d, s.latest[tid])];
      Enqueue(tid);
    }

    /** `take_ipc_msg` */
    method TakeIpcMsg(h: nat) returns (m: Option<seq<nat>>)
      requires Inv(St()) && h < MAX_HARTS
      modifies this`threads
      ensures (St(), m) == TakeMsg(old(St()), h)
    {
      var cur := current[h];
      m := threads[cur].ipcMsg;
      threads := threads[cur := threads[cur].(ipcMsg := None)];
      assert latest[cur := latest[cur]] == latest;
    }

    /** `block_user_from_trap` */
    method BlockUserFromTrap(h: nat, frame: seq<nat>, regs: Context) returns (o: Outcome, f: seq<nat>)
      requires Inv(St()) && CanBlock(St(), h, frame, regs)
      modifies this
      ensures (St(), o, f) == BlockUser(old(St()), h, frame, regs)
    {
      ghost var s := St();
      var cur := current[h];
      f := frame;
      var w := threads[cur].ipcWake;
      if w != NoWake {
        SetInv(s, -1, -1, cur, threads[cur].(ipcWake := NoWake), latest[cur]);
        threads := threads[cur := threads[cur].(ipcWake := NoWake, state := Running)];
        assert St() == SetTo(s, cur, s.threads[cur].(ipcWake := NoWake), latest[cur]);
        RevokeDonations(cur);
        f := Written(frame, Unkept(w));
        o := Stay;
        return;
      }
      SleepInv(s, h, frame, regs);
      threads := threads[cur := Asleep(threads[cur], frame, regs)];
      latest := latest[cur := FromFrame(frame)];
      assert St() == SetTo(s, cur, Asleep(s.threads[cur], frame, regs), FromFrame(frame));
      o := Leave(h);
    }

    /** `set_affinity`, for the states it accepts */
    method SetAffinity(id: nat, hart: nat)
      requires Inv(St()) && id < |threads| && threads[id].state in {Ready, Blocked}
      modifies this`ready, this`threads
      ensures St() == SchedSteps.SetAffinity(old(St()), id, hart)
    {
      var h := if hart < MAX_HARTS then hart else MAX_HARTS - 1;
      assert latest[id := latest[id]] == latest;
      if threads[id].state == Ready {
        if threads[id].hart != h {
          RemoveFromReady(id);
          threads := threads[id := threads[id].(hart := h)];
          Enqueue(id);
        }
      } else {
        threads := threads[id := threads[id].(hart := h)];
      }
    }

    /** `spawn` and `spawn_user`, once the thread has been made */
    method Spawn(t: Thread) returns (id: nat)
      requires Inv(St()) && HasRoom(St()) && ThreadOk(t) && t.state == Ready
      modifies this
      ensures id == NewSlot(old(St())) && St() == SchedSteps.Spawn(old(St()), t)
    {
      ghost var l := Start(t.ctx, t.frame);
      if freeSlots != [] {
        id := freeSlots[0];
        assert id in freeSlots;
        freeSlots := freeSlots[1..];
        threads := threads[id := t];
        latest := latest[id := l];
      } else {
        id := |threads|;
        threads := threads + [t];
        latest := latest + [l];
      }
      Enqueue(id);
    }

    /** `spawn_owned` */
    method SpawnOwned(t: Thread, pid: nat) returns (id: nat)
      requires Inv(St()) && HasRoom(St()) && ThreadOk(t) && t.state == Ready && t.proc == None
      requires Fresh(t, Start(t.ctx, t.frame))
      modifies this
      ensures id == NewSlot(old(St())) && St() == SchedSteps.SpawnOwned(old(St()), t, pid)
    {
      SpawnInv(St(), t);
      id := Spawn(t);
      ghost var s := St();
      QueuedAreThreads(s);
      AdoptRequeueable(s, id, pid);
      threads := threads[id := threads[id].(proc := Some(pid))];
      var any := HasDonation(pid);
      if any {
        RequeueProcThreads(pid, Places(s.threads, s.donations));
      }
    }

    method HasDonation(pid: nat) returns (any: bool)
      ensures any == exists i :: 0 <= i < |donations| && donations[i].peer == pid
    {
      var i := 0;
      while i < |donations|
        invariant 0 <= i <= |donations| && forall j :: 0 <= j < i ==> donations[j].peer != pid
      {
        if donations[i].peer == pid {
          return true;
        }
        i := i + 1;
      }
      return false;
    }

    /** Is a thread that a tick could start, other than the current one, queued at a level from `a` to `b`? */
    method AnyPreemptable(h: nat, a: nat, b: nat) returns (r: bool)
      requires QueuedExist(St()) && h < MAX_HARTS && h < |current| && a <= b <= PRIO_LEVELS
      ensures r == AnyIn(threads, ready[h], current[h], a, b)
    {
      var l := a;
      while l < b
        invariant a <= l <= b && !AnyIn(threads, ready[h], current[h], a, l)
      {
        var i := 0;
        while i < |ready[h][l]|
          invariant 0 <= i <= |ready[h][l]|
          invariant forall k :: 0 <= k < i ==>
            !(ready[h][l][k] != current[h] && Pickable(threads[ready[h][l][k]], false))
        {
          var id := ready[h][l][i];
          var startable := threads[id].frameValid || (threads[id].ctxValid && threads[id].woken);
          if id != current[h] && threads[id].state == Ready && startable {
            return true;
          }
          i := i + 1;
        }
        l := l + 1;
      }
      return false;
    }

    /** Within its slice the current thread goes on unless something better could run. */
    method GoesOn(h: nat) returns (r: bool)
      requires QueuedExist(St()) && h < MAX_HARTS && h < |current| && h < |ticks| && current[h] < |threads|
      requires threads[current[h]].prio < PRIO_LEVELS
      ensures r == (ticks[h] < SLICE_TICKS &&
                    !AnyIn(threads, ready[h], current[h], 0, Eff(threads[current[h]], donations)))
    {
      if ticks[h] >= SLICE_TICKS {
        return false;
      }
      var prio := EffPrio(current[h]);
      if prio == 0 {
        assert !AnyIn(threads, ready[h], current[h], 0, 0);
        return true;
      }
      var higher := AnyPreemptable(h, 0, prio);
      return !higher;
    }

    /** `on_tick` */
    method OnTick(frame: seq<nat>, h: nat, gp: nat) returns (o: Outcome)
      requires Inv(St()) && h < MAX_HARTS && |frame| == FRAME_WORDS
      modifies this
      ensures (St(), o) == Tick(old(St()), h, frame, gp)
    {
      ghost var s := St();
      QueuedAreThreads(s);
      ticks := ticks[h := ticks[h] + 1];
      var stays := GoesOn(h);
      if stays {
        return Stay;
      }
      ticks := ticks[h := 0];
      assert ticks == s.ticks[h := 0];
      var other := AnyPreemptable(h, 0, PRIO_LEVELS);
      if !other {
        return Stay;
      }
      o := Rotate(frame, h, gp, s);
    }

    /** Capturing the frame of the interrupted thread and queueing it. */
    method Capture(frame: seq<nat>, h: nat, ghost s: Sched)
      requires Inv(s) && h < MAX_HARTS && |frame| == FRAME_WORDS && St() == s.(ticks := s.ticks[h := 0])
      modifies this
      ensures St() == Preempt(s, h, frame)
    {
      var cur := current[h];
      threads := threads[cur := threads[cur].(frame := frame, frameValid := true, ctxValid := false)];
      latest := latest[cur := FromFrame(frame)];
      Enqueue(cur);
    }

    /** The second half of `on_tick`; `s` is the state it began in. */
    method Rotate(frame: seq<nat>, h: nat, gp: nat, ghost s: Sched) returns (o: Outcome)
      requires Inv(s) && h < MAX_HARTS && |frame| == FRAME_WORDS && St() == s.(ticks := s.ticks[h := 0])
      modifies this
      ensures (St(), o) == SchedTick.Rotate(s, h, frame, gp)
    {
      var cur := current[h];
      Capture(frame, h, s);
      PreemptInv(s, h, frame);
      QueuedAreThreads(St());
      var next := PickNext(h, false);
      if next == cur {
        KeepRunning(frame, h, s);
        return Stay;
      }
      o := Enter(next, h, gp);
    }

    /** The preempted thread was picked again. */
    method KeepRunning(frame: seq<nat>, h: nat, ghost s: Sched)
      requires Inv(s) && h < MAX_HARTS && |frame| == FRAME_WORDS && QueuedExist(Preempt(s, h, frame))
      requires (St(), s.current[h]) == Pick(Preempt(s, h, frame), h, false, 0) && h < |current|
      requires current[h] == s.current[h]
      modifies this
      ensures St() == old(St())
    {
      var cur := current[h];
      StaysOff(s, h, frame);
      RemoveFromReady(cur);
      threads := threads[cur := threads[cur].(state := Running, frameValid := true, ctxValid := false)];
    }

    /** Switching to a thread that was picked, from its frame, which is made from its context if need be. */
    method Enter(next: nat, h: nat, gp: nat) returns (o: Outcome)
      requires next < |threads| && h < |current| && |threads[next].ctx.s| == 12
      modifies this`current, this`threads
      ensures current == old(current)[h := next]
      ensures threads == if old(threads[next].frameValid) then old(threads)
                         else old(threads)[next := Expanded(old(threads[next]), gp)]
      ensures o == Switched(next, ByFrame(threads[next].frame))
    {
      current := current[h := next];
      if !threads[next].frameValid {
        threads := threads[next := Expanded(threads[next], gp)];
      }
      o := Switched(next, ByFrame(threads[next].frame));
    }
  }

  /** A thread that is not ready is in no queue. */
  lemma NotQueued(s: Sched, id: nat)
    requires Inv(s) && id < |s.threads| && s.threads[id].state != Ready
    ensures var h := s.threads[id].hart; s.ready[h := RemoveFrom(s.ready[h], id)] == s.ready
  {
    var h := s.threads[id].hart;
    forall i | 0 <= i < PRIO_LEVELS ensures id !in s.ready[h][i] {
      assert Holds(s.ready[h][i], Places(s.threads, s.donations), At(h, i));
    }
    RemoveFromNone(s.ready[h], id);
  }

  /** A preempted thread that is picked again is off the queues, and running. */
  lemma StaysOff(s: Sched, h: nat, frame: seq<nat>)
    requires Inv(s) && h < MAX_HARTS && |frame| == FRAME_WORDS && QueuedExist(Preempt(s, h, frame))
    requires Pick(Preempt(s, h, frame), h, false, 0).1 == s.current[h]
    ensures var cur, r := s.current[h], Pick(Preempt(s, h, frame), h, false, 0).0;
            && Shaped(r.ready) && ThreadOk(r.threads[cur]) && r.threads[cur].hart == h
            && r.ready[h := RemoveFrom(r.ready[h], cur)] == r.ready
            && r.threads[cur := r.threads[cur].(state := Running, frameValid := true, ctxValid := false)] == r.threads
  {
    var m, k := RotatePicks(s, h, frame);
    RotateDispatch(s, h, frame, m, k);
    var r := TakeOut(Preempt(s, h, frame), h, m, k);
    assert r.(current := r.current[h := s.current[h]]) == r;
    NotQueued(r, s.current[h]);
  }

  predicate CanQueue(ts: seq<Thread>, id: nat) {
    id < |ts| && ts[id].state == Ready && ThreadOk(ts[id])
  }

  function PushReady(ready: ReadyTable, ts: seq<Thread>, ds: seq<Donation>, ids: seq<nat>): (r: ReadyTable)
    requires Shaped(ready) && forall i :: 0 <= i < |ids| ==> CanQueue(ts, ids[i])
  {
    CanQueuePlaces(ts, ds, ids);
    PushAll(ready, Places(ts, ds), ids)
  }

  lemma CanQueuePlaces(ts: seq<Thread>, ds: seq<Donation>, ids: seq<nat>)
    requires forall i :: 0 <= i < |ids| ==> CanQueue(ts, ids[i])
    ensures forall id :: id in ids ==> id < |Places(ts, ds)| && Places(ts, ds)[id].At? && InRange(Places(ts, ds)[id])
  {
    forall id | id in ids ensures id < |Places(ts, ds)| && Places(ts, ds)[id].At? && InRange(Places(ts, ds)[id]) {
      var i :| 0 <= i < |ids| && ids[i] == id;
      assert CanQueue(ts, ids[i]);
      assert Places(ts, ds)[id] == PlaceOf(ts[id], ds);
    }
  }

  lemma PutSame(ready: ReadyTable, h: nat, l: nat)
    requires Shaped(ready) && h < MAX_HARTS && l < PRIO_LEVELS
    ensures Put(ready, h, l, ready[h][l]) == ready
  {
    assert ready[h][l := ready[h][l]] == ready[h];
  }

  lemma PutTwice(ready: ReadyTable, h: nat, l: nat, q: seq<nat>, q': seq<nat>)
    requires Shaped(ready) && h < MAX_HARTS && l < PRIO_LEVELS
    ensures Put(Put(ready, h, l, q), h, l, q') == Put(ready, h, l, q')
  {
    assert ready[h][l := q][l := q'] == ready[h][l := q'];
  }

  lemma FirstPickIs(ts: seq<Thread>, q: seq<nat>, needCtx: bool, j: nat)
    requires (forall i :: 0 <= i < |q| ==> q[i] < |ts|) && j <= |q|
    requires forall i :: 0 <= i < j ==> !Pickable(ts[q[i]], needCtx)
    requires j < |q| ==> Pickable(ts[q[j]], needCtx)
    ensures FirstPick(ts, q, needCtx) == j
  {
  }

  lemma {:induction false} RemovedAt(q: seq<nat>, id: nat, pos: nat)
    requires pos < |q| && q[pos] == id && id !in q[..pos]
    ensures Without(q, id) == q[..pos] + q[pos + 1..]
  {
    if pos > 0 {
      assert q[0] == q[..pos][0];
      assert q[1..][..pos - 1] == q[..pos][1..];
      RemovedAt(q[1..], id, pos - 1);
    }
  }
}
