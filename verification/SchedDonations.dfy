/** Priority donation: the table, and the requeueing that keeps the ready queues in step with it. */
module SchedDonations {
  import opened Common
  import opened ReadyQueues
  import opened SchedModel

  function OfProc(ts: seq<Thread>, p: nat): (r: set<nat>) {
    set id: nat | id < |ts| && ts[id].proc == Some(p)
  }

  /** Only donations to the process itself count. */
  lemma BoostSame(p: nat, pid: nat, ds: seq<Donation>, ds': seq<Donation>)
    requires forall d: Donation :: d.peer == pid ==> (d in ds <==> d in ds')
    ensures Boost(p, pid, ds) == Boost(p, pid, ds')
  {
    BoostIsBest(p, pid, ds);
    BoostIsBest(p, pid, ds');
  }

  /** What requeueing relies on: the threads it finds in the queues are ready. */
  ghost predicate Requeueable(s: Sched, p: nat) {
    && Shaped(s.ready)
    && forall id :: id in Gather(s.ready, OfProc(s.threads, p), MAX_HARTS, 0) ==>
         id < |s.threads| && s.threads[id].state == Ready && ThreadOk(s.threads[id])
  }

  /** `requeue_proc_threads` */
  function RequeueProc(s: Sched, p: nat): (r: Sched)
    requires Requeueable(s, p)
  {
    s.(ready := Requeue(s.ready, Places(s.threads, s.donations), OfProc(s.threads, p)))
  }

  lemma PlacesShift(ts: seq<Thread>, ds: seq<Donation>, ds': seq<Donation>, p: nat)
    requires forall id :: 0 <= id < |ts| ==> ThreadOk(ts[id])
    requires forall d: Donation :: d.peer != p ==> (d in ds <==> d in ds')
    ensures Shifts(Places(ts, ds), Places(ts, ds'), OfProc(ts, p))
  {
    forall id: nat | id < |ts| && ts[id].proc != Some(p) ensures Eff(ts[id], ds) == Eff(ts[id], ds') {
      if ts[id].proc.Some? { BoostSame(ts[id].prio, ts[id].proc.value, ds, ds'); }
    }
  }

  /** After donations to `p` have changed, requeueing `p` puts every queued thread at its level again. */
  lemma RequeueInv(s: Sched, hole: int, ds: seq<Donation>, p: nat)
    requires InvBut(s, hole) && DonationsOk(|s.threads|, ds)
    requires forall d: Donation :: d.peer != p ==> (d in s.donations <==> d in ds)
    ensures Requeueable(s.(donations := ds), p)
    ensures InvBut(RequeueProc(s.(donations := ds), p), hole)
  {
    var old', new' := Places(s.threads, s.donations), Places(s.threads, ds);
    PlacesShift(s.threads, s.donations, ds, p);
    RequeueQueues(old', new', s.ready, OfProc(s.threads, p));
  }

  // ----- The table -----

  /** Position of the donor's entry, or `|ds|`. */
  function EntryOf(ds: seq<Donation>, donor: nat): (i: nat)
    ensures i <= |ds| && (i < |ds| ==> ds[i].donor == donor)
    ensures forall j :: 0 <= j < i ==> ds[j].donor != donor
  {
    if ds == [] || ds[0].donor == donor then 0 else 1 + EntryOf(ds[1..], donor)
  }

  function Registered(ds: seq<Donation>, d: Donation): (r: seq<Donation>) {
    var i := EntryOf(ds, d.donor);
    if i < |ds| then ds[i := d] else if |ds| < MAX_DONATIONS then ds + [d] else ds
  }

  /** `register_donation` */
  function Register(s: Sched, donor: nat, peer: nat): (r: Sched)
    requires Inv(s) && donor < |s.threads|
  {
    var ds := Registered(s.donations, Donation(donor, peer, Eff(s.threads[donor], s.donations)));
    StillRequeueable(s, ds, peer);
    RequeueProc(s.(donations := ds), peer)
  }

  lemma StillRequeueable(s: Sched, ds: seq<Donation>, p: nat)
    requires Inv(s)
    ensures Requeueable(s.(donations := ds), p)
  {
    GatherFacts(Places(s.threads, s.donations), s.ready, OfProc(s.threads, p), MAX_HARTS, 0);
  }

  /** A thread that has no donation can always register one: the table has a place for every thread. */
  lemma TableHasRoom(n: nat, ds: seq<Donation>, donor: nat)
    requires DonationsOk(n, ds) && donor < n <= MAX_THREADS && EntryOf(ds, donor) == |ds|
    ensures |ds| < MAX_DONATIONS
  {
    var donors := seq(|ds|, i requires 0 <= i < |ds| => ds[i].donor);
    assert forall i, j :: 0 <= i < j < |donors| ==> donors[i] != donors[j];
    NoDupJoin(donors, [donor]);
    NoDupBound(donors + [donor], n);
  }

  lemma RegisterInv(s: Sched, donor: nat, peer: nat)
    requires Inv(s) && donor < |s.threads| && EntryOf(s.donations, donor) == |s.donations|
    ensures var ds := Registered(s.donations, Donation(donor, peer, Eff(s.threads[donor], s.donations)));
            && ds == s.donations + [Donation(donor, peer, Eff(s.threads[donor], s.donations))]
            && Requeueable(s.(donations := ds), peer)
            && Inv(RequeueProc(s.(donations := ds), peer))
  {
    TableHasRoom(|s.threads|, s.donations, donor);
    RequeueInv(s, -1, s.donations + [Donation(donor, peer, Eff(s.threads[donor], s.donations))], peer);
  }

  /** A queued thread stands at another level with the donations `ds'` than with `ds`. */
  predicate Drops(s: Sched, p: nat, ds': seq<Donation>, id: nat) {
    && id < |s.threads| && s.threads[id].state == Ready && s.threads[id].proc == Some(p)
    && Eff(s.threads[id], ds') != Eff(s.threads[id], s.donations)
  }

  /** Some queued thread of the process that the donor's old entry lifts, other than the new peer, loses by it. */
  ghost predicate LeavesBehind(s: Sched, donor: nat, peer: nat)
    requires donor < |s.threads|
  {
    var i := EntryOf(s.donations, donor);
    var ds := Registered(s.donations, Donation(donor, peer, Eff(s.threads[donor], s.donations)));
    i < |s.donations| && s.donations[i].peer != peer && exists id: nat :: Drops(s, s.donations[i].peer, ds, id)
  }

  /** A thread that is not requeued stays in the queue it is in. */
  lemma {:induction false} PushAllKeeps(ready: ReadyTable, places: seq<Place>, ids: seq<nat>, h: nat, l: nat, id: nat)
    requires Shaped(ready) && h < MAX_HARTS && l < PRIO_LEVELS && id in ready[h][l]
    requires forall x :: x in ids ==> x < |places| && places[x].At? && InRange(places[x])
    ensures Shaped(PushAll(ready, places, ids)) && id in PushAll(ready, places, ids)[h][l]
    decreases |ids|
  {
    if ids != [] {
      assert ids[0] in ids && forall x :: x in ids[1..] ==> x in ids;
      PushAllKeeps(Push(ready, places[ids[0]], ids[0]), places, ids[1..], h, l, id);
    }
  }

  /** A donor's entry may be replaced by one of the same size. */
  lemma ReplacedOk(n: nat, ds: seq<Donation>, d: Donation)
    requires DonationsOk(n, ds) && EntryOf(ds, d.donor) < |ds| && d.prio < PRIO_LEVELS
    ensures DonationsOk(n, Registered(ds, d))
    ensures var old' := ds[EntryOf(ds, d.donor)];
            forall e: Donation :: e.peer != d.peer && e.peer != old'.peer ==> (e in ds <==> e in Registered(ds, d))
  {
    var i := EntryOf(ds, d.donor);
    var r := ds[i := d];
    forall e: Donation | e.peer != d.peer && e.peer != ds[i].peer ensures e in ds <==> e in r {
      if e in ds { var j :| 0 <= j < |ds| && ds[j] == e; assert r[j] == e; }
      if e in r { var j :| 0 <= j < |r| && r[j] == e; assert ds[j] == e; }
    }
  }

  lemma ReplacedPlaces(s: Sched, donor: nat, peer: nat)
    requires Inv(s) && donor < |s.threads| && EntryOf(s.donations, donor) < |s.donations|
    requires !LeavesBehind(s, donor, peer)
    ensures var ds := Registered(s.donations, Donation(donor, peer, Eff(s.threads[donor], s.donations)));
            DonationsOk(|s.threads|, ds) &&
              Shifts(Places(s.threads, s.donations), Places(s.threads, ds), OfProc(s.threads, peer))
  {
    var d := Donation(donor, peer, Eff(s.threads[donor], s.donations));
    var ds, was := Registered(s.donations, d), s.donations[EntryOf(s.donations, donor)];
    ReplacedOk(|s.threads|, s.donations, d);
    forall id: nat | id < |s.threads| && s.threads[id].proc != Some(peer)
      ensures PlaceOf(s.threads[id], ds) == PlaceOf(s.threads[id], s.donations)
    {
      var t := s.threads[id];
      if t.proc == Some(was.peer) {
        assert !Drops(s, was.peer, ds, id);
      } else if t.proc.Some? {
        BoostSame(t.prio, t.proc.value, s.donations, ds);
      }
    }
  }

  /** A thread that is left behind is in a queue that is not the one of its level. */
  lemma BehindMisplaced(s: Sched, donor: nat, peer: nat)
    requires Inv(s) && donor < |s.threads| && LeavesBehind(s, donor, peer)
    ensures !Inv(Register(s, donor, peer))
  {
    var ds := Registered(s.donations, Donation(donor, peer, Eff(s.threads[donor], s.donations)));
    var p, r, m := s.donations[EntryOf(s.donations, donor)].peer, Register(s, donor, peer), OfProc(s.threads, peer);
    var id: nat :| Drops(s, p, ds, id);
    var h, l := s.threads[id].hart, Eff(s.threads[id], s.donations);
    StillRequeueable(s, ds, peer);
    assert Holds(s.ready[h][l], Places(s.threads, s.donations), At(h, l));
    InOutFacts(s.ready[h][l], m);
    assert id !in m && id in Strip(s.ready, m)[h][l];
    PushAllKeeps(Strip(s.ready, m), Places(s.threads, ds), Gather(s.ready, m, MAX_HARTS, 0), h, l, id);
    Misplaced(Places(r.threads, r.donations), r.ready, h, l, id);
  }

  lemma Misplaced(places: seq<Place>, ready: ReadyTable, h: nat, l: nat, id: nat)
    requires Shaped(ready) && h < MAX_HARTS && l < PRIO_LEVELS && id in ready[h][l] && id < |places|
    requires places[id] != At(h, l)
    ensures !Queues(places, ready)
  {
    assert !Holds(ready[h][l], places, At(h, l));
  }

  /**
    Registering keeps every queued thread at its level exactly when it does not replace a donation to another
    process that still lifts one of its queued threads: only the new peer's threads are requeued.
  */
  lemma RegisterIff(s: Sched, donor: nat, peer: nat)
    requires Inv(s) && donor < |s.threads|
    ensures Inv(Register(s, donor, peer)) <==> !LeavesBehind(s, donor, peer)
  {
    var ds := Registered(s.donations, Donation(donor, peer, Eff(s.threads[donor], s.donations)));
    if EntryOf(s.donations, donor) == |s.donations| {
      RegisterInv(s, donor, peer);
    } else if LeavesBehind(s, donor, peer) {
      BehindMisplaced(s, donor, peer);
    } else {
      ReplacedPlaces(s, donor, peer);
      RequeueQueues(Places(s.threads, s.donations), Places(s.threads, ds), s.ready, OfProc(s.threads, peer));
    }
  }

  /** The donor lifts the queued thread `id` of process `p`, and would not lift it for process `q`. */
  ghost predicate MayLift(s: Sched, donor: nat, id: nat, p: nat, q: nat) {
    && donor < |s.threads| && s.threads[donor].proc == None && s.donations == []
    && id < |s.threads| && s.threads[id].state == Ready && s.threads[id].proc == Some(p) && p != q
    && s.threads[donor].prio < s.threads[id].prio
  }

  /** A donor without a donation gives one to `p`, and then, without taking it back, to `q`. */
  lemma SecondDonation(s: Sched, donor: nat, id: nat, p: nat, q: nat)
    requires Inv(s) && MayLift(s, donor, id, p, q)
    ensures Inv(Register(s, donor, p)) && donor < |Register(s, donor, p).threads|
    ensures LeavesBehind(Register(s, donor, p), donor, q) && !Inv(Register(Register(s, donor, p), donor, q))
  {
    RegisterInv(s, donor, p);
    var r, d := Register(s, donor, p), Donation(donor, p, s.threads[donor].prio);
    assert r.donations == [d] && r.threads == s.threads;
    var e := Donation(donor, q, s.threads[donor].prio);
    assert EntryOf([d], donor) == 0 && Registered([d], e) == [e];
    var t := s.threads[id];
    BoostDetermined(t.prio, p, [d], d.prio);
    BoostDetermined(t.prio, p, [e], t.prio);
    assert Drops(r, p, [e], id);
    RegisterIff(r, donor, q);
  }

  function Dropped(ds: seq<Donation>, i: nat): (r: seq<Donation>)
    requires i < |ds|
  {
    ds[..i] + ds[i + 1..]
  }

  /** `revoke_donations`; every donor has at most one entry. */
  function Revoke(s: Sched, donor: nat): (r: Sched)
    requires Inv(s)
  {
    var i := EntryOf(s.donations, donor);
    if i == |s.donations| then s
    else
      RevokeInv(s, donor, i);
      RequeueProc(s.(donations := Dropped(s.donations, i)), s.donations[i].peer)
  }

  lemma DonorUnique(n: nat, ds: seq<Donation>, i: nat, d: Donation)
    requires DonationsOk(n, ds) && i < |ds| && d in ds && d.donor == ds[i].donor
    ensures d == ds[i]
  {
  }

  lemma DroppedMembers(n: nat, ds: seq<Donation>, i: nat, d: Donation)
    requires DonationsOk(n, ds) && i < |ds|
    ensures d in Dropped(ds, i) <==> d in ds && d.donor != ds[i].donor
  {
    if d in ds && d.donor != ds[i].donor {
      var j :| 0 <= j < |ds| && ds[j] == d;
      if j < i { assert Dropped(ds, i)[j] == d; } else { assert Dropped(ds, i)[j - 1] == d; }
    }
  }

  lemma DroppedOk(n: nat, ds: seq<Donation>, i: nat)
    requires DonationsOk(n, ds) && i < |ds|
    ensures DonationsOk(n, Dropped(ds, i)) && EntryOf(Dropped(ds, i), ds[i].donor) == |ds| - 1
  {
    var r := Dropped(ds, i);
    forall j | 0 <= j < |r| ensures r[j] == ds[if j < i then j else j + 1] {
    }
  }

  lemma RevokeInv(s: Sched, donor: nat, i: nat)
    requires Inv(s) && i == EntryOf(s.donations, donor) < |s.donations|
    ensures Requeueable(s.(donations := Dropped(s.donations, i)), s.donations[i].peer)
    ensures Inv(RequeueProc(s.(donations := Dropped(s.donations, i)), s.donations[i].peer))
  {
    DroppedOk(|s.threads|, s.donations, i);
    forall d: Donation | d.peer != s.donations[i].peer ensures d in s.donations <==> d in Dropped(s.donations, i) {
      DroppedMembers(|s.threads|, s.donations, i, d);
      if d in s.donations && d.donor == donor { DonorUnique(|s.threads|, s.donations, i, d); }
    }
    RequeueInv(s, -1, Dropped(s.donations, i), s.donations[i].peer);
  }

  lemma RevokedInv(s: Sched, donor: nat)
    requires Inv(s)
    ensures var r := Revoke(s, donor);
            && Inv(r) && r == s.(ready := r.ready, donations := r.donations)
            && EntryOf(r.donations, donor) == |r.donations|
            && forall d: Donation :: d in r.donations <==> d in s.donations && d.donor != donor
  {
    var i := EntryOf(s.donations, donor);
    if i < |s.donations| {
      RevokeInv(s, donor, i);
      DroppedOk(|s.threads|, s.donations, i);
      forall d: Donation ensures d in Dropped(s.donations, i) <==> d in s.donations && d.donor != donor {
        DroppedMembers(|s.threads|, s.donations, i, d);
      }
    }
  }
}
