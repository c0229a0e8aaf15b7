/**
  IPC results and blocking. A result that reaches a blocked thread is written into its frame and left in
  its mailbox, which is where a kernel thread looks; one that comes earlier is kept until the thread wants
  to block, which it then does not do.
*/
module SchedWake {
  import opened Common
  import opened ReadyQueues
  import opened SchedModel
  import opened SchedDonations
  import opened SchedSteps

  predicate DeliveryOk(d: Delivery) {
    d.Message? ==> |d.words| == MSG_WORDS
  }

  /** Frame `f` with the result in `a0..a5` and `sepc` past the system call. */
  function Written(f: seq<nat>, d: Delivery): (r: seq<nat>)
    requires |f| == FRAME_WORDS && DeliveryOk(d)
    ensures |r| == FRAME_WORDS
  {
    seq(FRAME_WORDS, i requires 0 <= i < FRAME_WORDS =>
      if i == X_A0 then (if d.PeerGone? then d.code else 0)
      else if d.Message? && X_A1 <= i < X_A1 + MSG_WORDS then d.words[i - X_A1]
      else if i == FRAME_SEPC then f[i] + 4
      else f[i])
  }

  /** What is kept for a thread that has not blocked yet: an acknowledgement becomes an all-zero message. */
  function Kept(d: Delivery): (w: IpcWake)
    ensures w != NoWake
  {
    match d
    case Message(words) => Msg(words)
    case Ack => Msg(seq(MSG_WORDS, i => 0))
    case PeerGone(code) => Failed(code)
  }

  function Unkept(w: IpcWake): (d: Delivery)
    requires w != NoWake
  {
    if w.Msg? then Message(w.words) else PeerGone(w.code)
  }

  predicate WakeOk(w: IpcWake) {
    w.Msg? ==> |w.words| == MSG_WORDS
  }

  /** What is left in the mailbox of a blocked thread: nothing for an acknowledgement. */
  function Mail(d: Delivery): (r: Option<seq<nat>>) {
    match d
    case Message(words) => Some(words)
    case Ack => None
    case PeerGone(code) => Some(seq(MSG_WORDS, i => code))
  }

  /** What is left in the mailbox of a thread that has not blocked yet: zeros for an acknowledgement. */
  function EarlyMail(d: Delivery): (r: seq<nat>) {
    if d == Ack then seq(MSG_WORDS, i => 0) else Mail(d).value
  }

  /** A blocked thread gets its result. */
  function Served(t: Thread, d: Delivery): (r: Thread)
    requires |t.frame| == FRAME_WORDS && DeliveryOk(d)
  {
    t.(frame := Written(t.frame, d), ipcMsg := Mail(d), ipcWake := NoWake, state := Ready)
  }

  /** A thread that has not blocked has its result kept. */
  function Holding(t: Thread, d: Delivery): (r: Thread) {
    t.(ipcWake := Kept(d), ipcMsg := Some(EarlyMail(d)))
  }

  /** What a thread continues from after it was served: a user thread sees the result, a kernel thread does not. */
  function ServedFrom(t: Thread, d: Delivery, l: Latest): (r: Latest)
    requires |t.frame| == FRAME_WORDS && DeliveryOk(d)
  {
    if t.user then FromFrame(Written(t.frame, d)) else l
  }

  /** A kernel thread blocks in its context, with no frame to continue from. */
  predicate CanServe(s: Sched, tid: nat, d: Delivery)
    requires Sized(s)
  {
    && tid < |s.threads| && s.threads[tid].state != Exited && DeliveryOk(d)
    && (s.threads[tid].state == Blocked && !s.threads[tid].user ==> !s.threads[tid].frameValid)
  }

  lemma ServedInv(s: Sched, tid: nat, d: Delivery)
    requires Inv(s) && CanServe(s, tid, d) && s.threads[tid].state == Blocked
    ensures Inv(Queue(s, tid, Served(s.threads[tid], d), ServedFrom(s.threads[tid], d, s.latest[tid])))
  {
    QueueInv(s, -1, -1, tid, Served(s.threads[tid], d), ServedFrom(s.threads[tid], d, s.latest[tid]));
  }

  /** `ipc_wake_with_msg` and `ipc_wake_with_err` */
  function Deliver(s: Sched, tid: nat, d: Delivery): (r: Sched)
    requires Inv(s) && CanServe(s, tid, d)
  {
    var t := s.threads[tid];
    if t.state != Blocked then SetTo(s, tid, Holding(t, d), s.latest[tid])
    else
      ServedInv(s, tid, d);
      Revoke(Queue(s, tid, Served(t, d), ServedFrom(t, d, s.latest[tid])), tid)
  }

  /** What delivering `d` to `tid` does: it completes a blocked thread and ends its donation, else it is kept. */
  ghost predicate Delivers(s: Sched, tid: nat, d: Delivery, r: Sched)
    requires Sized(s) && CanServe(s, tid, d)
  {
    && r.current == s.current && r.idle == s.idle
    && if s.threads[tid].state == Blocked then
         && r.threads == s.threads[tid := Served(s.threads[tid], d)]
         && |s.latest| == |s.threads| && r.latest == s.latest[tid := ServedFrom(s.threads[tid], d, s.latest[tid])]
         && forall e: Donation :: e in r.donations <==> e in s.donations && e.donor != tid
       else
         && r.threads == s.threads[tid := Holding(s.threads[tid], d)]
         && r.latest == s.latest && r.donations == s.donations
  }

  lemma DeliverInv(s: Sched, tid: nat, d: Delivery)
    requires Inv(s) && CanServe(s, tid, d)
    ensures Inv(Deliver(s, tid, d)) && Delivers(s, tid, d, Deliver(s, tid, d))
  {
    var t := s.threads[tid];
    if t.state != Blocked {
      SetInv(s, -1, -1, tid, Holding(t, d), s.latest[tid]);
      assert s.latest[tid := s.latest[tid]] == s.latest;
    } else {
      ServedInv(s, tid, d);
      RevokedInv(Queue(s, tid, Served(t, d), ServedFrom(t, d, s.latest[tid])), tid);
    }
  }

  /** `take_ipc_msg`: the current thread empties its mailbox. */
  function TakeMsg(s: Sched, h: nat): (r: (Sched, Option<seq<nat>>))
    requires Sized(s) && h < MAX_HARTS
  {
    var cur := s.current[h];
    (SetTo(s, cur, s.threads[cur].(ipcMsg := None), s.latest[cur]), s.threads[cur].ipcMsg)
  }

  lemma TakeMsgInv(s: Sched, h: nat)
    requires Inv(s) && h < MAX_HARTS
    ensures Inv(TakeMsg(s, h).0)
  {
    SetInv(s, -1, -1, s.current[h], s.threads[s.current[h]].(ipcMsg := None), s.latest[s.current[h]]);
  }

  predicate CanBlock(s: Sched, h: nat, frame: seq<nat>, regs: Context)
    requires Sized(s)
  {
    && h < MAX_HARTS && s.threads[s.current[h]].user && WakeOk(s.threads[s.current[h]].ipcWake)
    && |frame| == FRAME_WORDS && |regs.s| == 12
  }

  function Asleep(t: Thread, frame: seq<nat>, regs: Context): (r: Thread) {
    t.(frame := frame, frameValid := true, ctxValid := false, woken := false, state := Blocked, ctx := regs)
  }

  /** `block_user_from_trap`: new state, whether it switches, and the trap frame if it does not. */
  function BlockUser(s: Sched, h: nat, frame: seq<nat>, regs: Context): (r: (Sched, Outcome, seq<nat>))
    requires Inv(s) && CanBlock(s, h, frame, regs)
  {
    var cur := s.current[h];
    var t := s.threads[cur];
    if t.ipcWake != NoWake then
      SetInv(s, -1, -1, cur, t.(ipcWake := NoWake), s.latest[cur]);
      (Revoke(SetTo(s, cur, t.(ipcWake := NoWake), s.latest[cur]), cur), Stay, Written(frame, Unkept(t.ipcWake)))
    else
      SleepInv(s, h, frame, regs);
      var (r, o) := SwitchAway(SetTo(s, cur, Asleep(t, frame, regs), FromFrame(frame)), h);
      (r, o, frame)
  }

  lemma SleepInv(s: Sched, h: nat, frame: seq<nat>, regs: Context)
    requires Inv(s) && CanBlock(s, h, frame, regs)
    ensures var cur := s.current[h]; InvBut(SetTo(s, cur, Asleep(s.threads[cur], frame, regs), FromFrame(frame)), h)
  {
    SetInv(s, -1, h, s.current[h], Asleep(s.threads[s.current[h]], frame, regs), FromFrame(frame));
  }

  /** What blocking does: a kept result is taken and the thread goes on, else it sleeps and another takes over. */
  ghost predicate Blocks(s: Sched, h: nat, frame: seq<nat>, regs: Context, r: Sched, o: Outcome, f: seq<nat>)
    requires Sized(s) && CanBlock(s, h, frame, regs)
  {
    var cur := s.current[h];
    && r.idle == s.idle
    && if s.threads[cur].ipcWake != NoWake then
         && o == Stay && r.current == s.current && r.latest == s.latest
         && r.threads == s.threads[cur := s.threads[cur].(ipcWake := NoWake)]
         && f == Written(frame, Unkept(s.threads[cur].ipcWake))
         && forall e: Donation :: e in r.donations <==> e in s.donations && e.donor != cur
       else
         && o.Switched? && o.next < |s.threads| && o.next != cur && r.donations == s.donations
         && r.current == s.current[h := o.next]
         && s.threads[o.next].hart == h && (s.threads[o.next].state == Ready || o.next == s.idle[h])
         && r.threads == s.threads[cur := Asleep(s.threads[cur], frame, regs)]
                                  [o.next := s.threads[o.next].(state := Running)]
         && |s.latest| == |s.threads| && r.latest == s.latest[cur := FromFrame(frame)]
  }

  lemma BlockUserInv(s: Sched, h: nat, frame: seq<nat>, regs: Context, gp: nat)
    requires Inv(s) && CanBlock(s, h, frame, regs)
    ensures var (r, o, f) := BlockUser(s, h, frame, regs);
            Inv(r) && Resumes(r, h, o, gp) && Blocks(s, h, frame, regs, r, o, f) && Cooperative(s, r, h, o)
  {
    var cur := s.current[h];
    var t := s.threads[cur];
    if t.ipcWake != NoWake {
      SetInv(s, -1, -1, cur, t.(ipcWake := NoWake), s.latest[cur]);
      RevokedInv(SetTo(s, cur, t.(ipcWake := NoWake), s.latest[cur]), cur);
      assert s.latest[cur := s.latest[cur]] == s.latest;
    } else {
      SleepInv(s, h, frame, regs);
      SwitchInv(SetTo(s, cur, Asleep(t, frame, regs), FromFrame(frame)), h, gp);
    }
  }

  /** The frame the thread continues from when the result comes before it blocks. */
  function EarlyFrame(s: Sched, h: nat, d: Delivery, frame: seq<nat>, regs: Context): (f: seq<nat>)
    requires Inv(s) && CanBlock(s, h, frame, regs) && DeliveryOk(d)
  {
    DeliverInv(s, s.current[h], d);
    BlockUser(Deliver(s, s.current[h], d), h, frame, regs).2
  }

  /** The frame the thread continues from when the result comes after it has blocked. */
  function LateFrame(s: Sched, h: nat, d: Delivery, frame: seq<nat>, regs: Context): (f: seq<nat>)
    requires Inv(s) && CanBlock(s, h, frame, regs) && DeliveryOk(d) && s.threads[s.current[h]].ipcWake == NoWake
  {
    BlockUserInv(s, h, frame, regs, 0);
    var r := BlockUser(s, h, frame, regs).0;
    DeliverInv(r, s.current[h], d);
    Deliver(r, s.current[h], d).threads[s.current[h]].frame
  }

  lemma EarlyIs(s: Sched, h: nat, d: Delivery, frame: seq<nat>, regs: Context)
    requires Inv(s) && CanBlock(s, h, frame, regs) && DeliveryOk(d)
    ensures EarlyFrame(s, h, d, frame, regs) == Written(frame, Unkept(Kept(d)))
  {
    DeliverInv(s, s.current[h], d);
    BlockUserInv(Deliver(s, s.current[h], d), h, frame, regs, 0);
  }

  lemma LateIs(s: Sched, h: nat, d: Delivery, frame: seq<nat>, regs: Context)
    requires Inv(s) && CanBlock(s, h, frame, regs) && DeliveryOk(d) && s.threads[s.current[h]].ipcWake == NoWake
    ensures LateFrame(s, h, d, frame, regs) == Written(frame, d)
  {
    BlockUserInv(s, h, frame, regs, 0);
    DeliverInv(BlockUser(s, h, frame, regs).0, s.current[h], d);
  }

  lemma KeptWrites(frame: seq<nat>, d: Delivery)
    requires |frame| == FRAME_WORDS && DeliveryOk(d)
    ensures Written(frame, Unkept(Kept(d))) == Written(frame, d) <==>
              (d == Ack ==> forall i :: X_A1 <= i < X_A1 + MSG_WORDS ==> frame[i] == 0)
  {
    var early, late := Written(frame, Unkept(Kept(d))), Written(frame, d);
    if d == Ack {
      forall i | X_A1 <= i < X_A1 + MSG_WORDS ensures early[i] == 0 && late[i] == frame[i] {
      }
      assert forall i :: 0 <= i < FRAME_WORDS && !(X_A1 <= i < X_A1 + MSG_WORDS) ==> early[i] == late[i];
    }
  }

  /**
    A message or an error leaves the thread with the same `a0..a5` and `sepc` in either order. An
    acknowledgement does so exactly when the words it sent were all zero: coming early it clears `a1..a5`.
  */
  lemma EitherOrder(s: Sched, h: nat, d: Delivery, frame: seq<nat>, regs: Context)
    requires Inv(s) && CanBlock(s, h, frame, regs) && DeliveryOk(d) && s.threads[s.current[h]].ipcWake == NoWake
    ensures LateFrame(s, h, d, frame, regs) == Written(frame, d)
    ensures EarlyFrame(s, h, d, frame, regs) == LateFrame(s, h, d, frame, regs) <==>
              (d == Ack ==> forall i :: X_A1 <= i < X_A1 + MSG_WORDS ==> frame[i] == 0)
  {
    EarlyIs(s, h, d, frame, regs);
    LateIs(s, h, d, frame, regs);
    KeptWrites(frame, d);
  }

  /** What a kernel thread finds in its mailbox when the result comes before it blocks. */
  function EarlyBox(s: Sched, h: nat, d: Delivery, regs: Context): (r: Option<seq<nat>>)
    requires Inv(s) && CanPark(s, h, regs) && DeliveryOk(d)
  {
    DeliverInv(s, s.current[h], d);
    BlockCurrent(Deliver(s, s.current[h], d), h, regs).0.threads[s.current[h]].ipcMsg
  }

  /** What it finds when the result comes after it has blocked. */
  function LateBox(s: Sched, h: nat, d: Delivery, regs: Context): (r: Option<seq<nat>>)
    requires Inv(s) && CanPark(s, h, regs) && DeliveryOk(d)
    requires s.threads[s.current[h]].ipcWake == NoWake && !s.threads[s.current[h]].woken
  {
    BlockCurrentInv(s, h, regs, 0);
    var r := BlockCurrent(s, h, regs).0;
    DeliverInv(r, s.current[h], d);
    Deliver(r, s.current[h], d).threads[s.current[h]].ipcMsg
  }

  predicate CanPark(s: Sched, h: nat, regs: Context)
    requires Sized(s)
  {
    h < MAX_HARTS && !s.threads[s.current[h]].user && s.current[h] != s.idle[h] && |regs.s| == 12
  }

  /**
    A kernel thread finds a message or an error in its mailbox in either order; an acknowledgement leaves
    zeros there exactly when it comes early.
  */
  lemma EitherBox(s: Sched, h: nat, d: Delivery, regs: Context)
    requires Inv(s) && CanPark(s, h, regs) && DeliveryOk(d)
    requires s.threads[s.current[h]].ipcWake == NoWake && !s.threads[s.current[h]].woken
    ensures d.Message? ==> LateBox(s, h, d, regs) == Some(d.words)
    ensures EarlyBox(s, h, d, regs) == LateBox(s, h, d, regs) <==> d != Ack
  {
    EarlyBoxIs(s, h, d, regs);
    LateBoxIs(s, h, d, regs);
  }

  lemma EarlyBoxIs(s: Sched, h: nat, d: Delivery, regs: Context)
    requires Inv(s) && CanPark(s, h, regs) && DeliveryOk(d)
    ensures EarlyBox(s, h, d, regs) == Some(EarlyMail(d))
  {
    DeliverInv(s, s.current[h], d);
    BlockCurrentInv(Deliver(s, s.current[h], d), h, regs, 0);
  }

  lemma LateBoxIs(s: Sched, h: nat, d: Delivery, regs: Context)
    requires Inv(s) && CanPark(s, h, regs) && DeliveryOk(d)
    requires s.threads[s.current[h]].ipcWake == NoWake && !s.threads[s.current[h]].woken
    ensures LateBox(s, h, d, regs) == Mail(d)
  {
    BlockCurrentInv(s, h, regs, 0);
    DeliverInv(BlockCurrent(s, h, regs).0, s.current[h], d);
  }

  /** An early acknowledgement of a non-zero message: the sender's `a1` is lost. */
  lemma EarlyAckClears(frame: seq<nat>)
    requires |frame| == FRAME_WORDS && frame[X_A1] == 7
    ensures Written(frame, Unkept(Kept(Ack)))[X_A1] == 0 && Written(frame, Ack)[X_A1] == 7
  {
  }
}
