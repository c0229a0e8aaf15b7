/**
  The ready queues `ready[hart][level]` and where each thread belongs in them. A thread's place is
  computed from its state, its affinity and its effective priority; the queues are right when every
  queue holds exactly the threads whose place it is, each once.
*/
module ReadyQueues {
  import opened Common

  const MAX_HARTS := 4
  const PRIO_LEVELS := 3

  type ReadyTable = seq<seq<seq<nat>>>

  datatype Place = Nowhere | At(hart: nat, level: nat)

  predicate Shaped(ready: ReadyTable) {
    |ready| == MAX_HARTS && forall h :: 0 <= h < MAX_HARTS ==> |ready[h]| == PRIO_LEVELS
  }

  predicate InRange(p: Place) {
    p.At? ==> p.hart < MAX_HARTS && p.level < PRIO_LEVELS
  }

  ghost predicate Holds(q: seq<nat>, places: seq<Place>, p: Place) {
    NoDup(q) && forall id: nat :: id in q <==> id < |places| && places[id] == p
  }

  ghost predicate Queues(places: seq<Place>, ready: ReadyTable) {
    && Shaped(ready)
    && (forall id :: 0 <= id < |places| ==> InRange(places[id]))
    && forall h, l :: 0 <= h < MAX_HARTS && 0 <= l < PRIO_LEVELS ==> Holds(ready[h][l], places, At(h, l))
  }

  function Put(ready: ReadyTable, h: nat, l: nat, q: seq<nat>): (r: ReadyTable)
    requires Shaped(ready) && h < MAX_HARTS && l < PRIO_LEVELS
    ensures Shaped(r) && r[h][l] == q
    ensures forall g, m :: 0 <= g < MAX_HARTS && 0 <= m < PRIO_LEVELS && !(g == h && m == l) ==> r[g][m] == ready[g][m]
  {
    ready[h := ready[h][l := q]]
  }

  function Push(ready: ReadyTable, p: Place, id: nat): (r: ReadyTable)
    requires Shaped(ready) && p.At? && InRange(p)
    ensures Shaped(r)
  {
    Put(ready, p.hart, p.level, ready[p.hart][p.level] + [id])
  }

  /** Queue `q` after `pick_next` has taken its `k`-th thread out; those before it went to the back. */
  function RotateOut(q: seq<nat>, k: nat): (r: seq<nat>)
    requires k < |q|
  {
    q[k + 1..] + q[..k]
  }

  lemma PushQueues(places: seq<Place>, ready: ReadyTable, id: nat, p: Place)
    requires Queues(places, ready) && id < |places| && places[id] == Nowhere && p.At? && InRange(p)
    ensures Queues(places[id := p], Push(ready, p, id))
  {
    var places', r := places[id := p], Push(ready, p, id);
    forall h, l | 0 <= h < MAX_HARTS && 0 <= l < PRIO_LEVELS ensures Holds(r[h][l], places', At(h, l)) {
      assert Holds(ready[h][l], places, At(h, l));
    }
  }

  /** A thread that joins the table joins the queues. */
  lemma PushNewQueues(places: seq<Place>, ready: ReadyTable, p: Place)
    requires Queues(places, ready) && p.At? && InRange(p)
    ensures Queues(places + [p], Push(ready, p, |places|))
  {
    var places', r := places + [p], Push(ready, p, |places|);
    forall h, l | 0 <= h < MAX_HARTS && 0 <= l < PRIO_LEVELS ensures Holds(r[h][l], places', At(h, l)) {
      assert Holds(ready[h][l], places, At(h, l));
      NoDupJoin(ready[h][l], [|places|]);
    }
  }

  /** A queue that loses exactly thread `id`, in whatever order it keeps the others. */
  lemma DropQueues(places: seq<Place>, ready: ReadyTable, id: nat, q: seq<nat>)
    requires Queues(places, ready) && id < |places| && places[id].At?
    requires NoDup(q) && forall x: nat :: x in q <==> x in ready[places[id].hart][places[id].level] && x != id
    ensures Queues(places[id := Nowhere], Put(ready, places[id].hart, places[id].level, q))
  {
    var p := places[id];
    var places', r := places[id := Nowhere], Put(ready, p.hart, p.level, q);
    forall h, l | 0 <= h < MAX_HARTS && 0 <= l < PRIO_LEVELS ensures Holds(r[h][l], places', At(h, l)) {
      assert Holds(ready[h][l], places, At(h, l));
    }
  }

  lemma RotateOutFacts(q: seq<nat>, k: nat)
    requires NoDup(q) && k < |q|
    ensures NoDup(RotateOut(q, k)) && forall x: nat :: x in RotateOut(q, k) <==> x in q && x != q[k]
  {
    var r := RotateOut(q, k);
    forall x: nat | x in q && x != q[k] ensures x in r {
      var i :| 0 <= i < |q| && q[i] == x;
      if i < k { assert q[..k][i] == x; } else { assert q[k + 1..][i - k - 1] == x; }
    }
  }

  // ----- Requeueing a set of threads -----

  function In(q: seq<nat>, m: set<nat>): (r: seq<nat>) {
    if q == [] then [] else if q[0] in m then [q[0]] + In(q[1..], m) else In(q[1..], m)
  }

  function Out(q: seq<nat>, m: set<nat>): (r: seq<nat>) {
    if q == [] then [] else if q[0] in m then Out(q[1..], m) else [q[0]] + Out(q[1..], m)
  }

  lemma {:induction false} InOutFacts(q: seq<nat>, m: set<nat>)
    ensures forall x: nat :: x in In(q, m) <==> x in q && x in m
    ensures forall x: nat :: x in Out(q, m) <==> x in q && x !in m
    ensures NoDup(q) ==> NoDup(In(q, m)) && NoDup(Out(q, m))
  {
    if q != [] {
      InOutFacts(q[1..], m);
      assert forall x: nat :: x in q <==> x == q[0] || x in q[1..];
    }
  }

  /** All queues without the threads in `m`. */
  function Strip(ready: ReadyTable, m: set<nat>): (r: ReadyTable)
    requires Shaped(ready)
    ensures Shaped(r)
  {
    seq(MAX_HARTS, h requires 0 <= h < MAX_HARTS =>
      seq(PRIO_LEVELS, l requires 0 <= l < PRIO_LEVELS => Out(ready[h][l], m)))
  }

  /** The threads of `m` in the queues before `(h, l)`, in queue order. */
  function Gather(ready: ReadyTable, m: set<nat>, h: nat, l: nat): (r: seq<nat>)
    requires Shaped(ready) && h <= MAX_HARTS && l <= PRIO_LEVELS && (h == MAX_HARTS ==> l == 0)
    decreases h, l, |ready|
  {
    if l > 0 then Gather(ready, m, h, l - 1) + In(ready[h][l - 1], m)
    else if h > 0 then Gather(ready, m, h - 1, PRIO_LEVELS)
    else []
  }

  /** The table when the queues before `(h, l)` have been stripped. */
  ghost function StripTo(ready: ReadyTable, m: set<nat>, h: nat, l: nat): (r: ReadyTable)
    requires Shaped(ready)
    ensures Shaped(r)
  {
    seq(MAX_HARTS, g requires 0 <= g < MAX_HARTS =>
      seq(PRIO_LEVELS, k requires 0 <= k < PRIO_LEVELS =>
        if g < h || (g == h && k < l) then Out(ready[g][k], m) else ready[g][k]))
  }

  lemma Same(a: ReadyTable, b: ReadyTable)
    requires Shaped(a) && Shaped(b)
    requires forall g, k :: 0 <= g < MAX_HARTS && 0 <= k < PRIO_LEVELS ==> a[g][k] == b[g][k]
    ensures a == b
  {
    forall g | 0 <= g < MAX_HARTS ensures a[g] == b[g] {}
  }

  lemma StripStep(ready: ReadyTable, m: set<nat>, h: nat, l: nat)
    requires Shaped(ready) && h < MAX_HARTS && l < PRIO_LEVELS
    ensures StripTo(ready, m, h, l)[h][l] == ready[h][l]
    ensures StripTo(ready, m, h, l + 1) == Put(StripTo(ready, m, h, l), h, l, Out(ready[h][l], m))
  {
    Same(StripTo(ready, m, h, l + 1), Put(StripTo(ready, m, h, l), h, l, Out(ready[h][l], m)));
  }

  lemma StripEnds(ready: ReadyTable, m: set<nat>, h: nat)
    requires Shaped(ready)
    ensures StripTo(ready, m, 0, 0) == ready && StripTo(ready, m, MAX_HARTS, 0) == Strip(ready, m)
    ensures StripTo(ready, m, h, PRIO_LEVELS) == StripTo(ready, m, h + 1, 0)
  {
    Same(StripTo(ready, m, 0, 0), ready);
    Same(StripTo(ready, m, MAX_HARTS, 0), Strip(ready, m));
    Same(StripTo(ready, m, h, PRIO_LEVELS), StripTo(ready, m, h + 1, 0));
  }

  function PushAll(ready: ReadyTable, places: seq<Place>, ids: seq<nat>): (r: ReadyTable)
    requires Shaped(ready) && forall id :: id in ids ==> id < |places| && places[id].At? && InRange(places[id])
    ensures Shaped(r)
    decreases |ids|
  {
    if ids == [] then ready
    else
      assert ids[0] in ids && forall id :: id in ids[1..] ==> id in ids;
      PushAll(Push(ready, places[ids[0]], ids[0]), places, ids[1..])
  }

  ghost predicate Before(p: Place, h: nat, l: nat) {
    p.At? && (p.hart < h || (p.hart == h && p.level < l))
  }

  lemma {:induction false} GatherFacts(places: seq<Place>, ready: ReadyTable, m: set<nat>, h: nat, l: nat)
    requires Queues(places, ready) && h <= MAX_HARTS && l <= PRIO_LEVELS && (h == MAX_HARTS ==> l == 0)
    ensures NoDup(Gather(ready, m, h, l))
    ensures forall id: nat :: id in Gather(ready, m, h, l) <==> id in m && id < |places| && Before(places[id], h, l)
    decreases h, l
  {
    if l > 0 {
      GatherFacts(places, ready, m, h, l - 1);
      InOutFacts(ready[h][l - 1], m);
      assert Holds(ready[h][l - 1], places, At(h, l - 1));
      NoDupJoin(Gather(ready, m, h, l - 1), In(ready[h][l - 1], m));
    } else if h > 0 {
      GatherFacts(places, ready, m, h - 1, PRIO_LEVELS);
    }
  }

  /** The places when the threads in `m` are taken out. */
  ghost function Unplaced(places: seq<Place>, m: set<nat>): (r: seq<Place>)
    ensures |r| == |places| && forall id :: 0 <= id < |places| ==> r[id] == if id in m then Nowhere else places[id]
  {
    seq(|places|, id requires 0 <= id < |places| => if id in m then Nowhere else places[id])
  }

  lemma StripQueues(places: seq<Place>, ready: ReadyTable, m: set<nat>)
    requires Queues(places, ready)
    ensures Queues(Unplaced(places, m), Strip(ready, m))
  {
    var places', r := Unplaced(places, m), Strip(ready, m);
    forall h, l | 0 <= h < MAX_HARTS && 0 <= l < PRIO_LEVELS ensures Holds(r[h][l], places', At(h, l)) {
      assert Holds(ready[h][l], places, At(h, l));
      InOutFacts(ready[h][l], m);
    }
  }

  lemma {:induction false} PushAllQueues(now: seq<Place>, places: seq<Place>, ready: ReadyTable, ids: seq<nat>)
    requires Queues(now, ready) && NoDup(ids) && |now| == |places|
    requires forall id :: id in ids ==> id < |places| && places[id].At? && InRange(places[id]) && now[id] == Nowhere
    requires forall id :: 0 <= id < |places| && id !in ids ==> now[id] == places[id]
    ensures Queues(places, PushAll(ready, places, ids))
    decreases |ids|
  {
    if ids == [] {
      assert now == places;
    } else {
      var id := ids[0];
      assert id in ids;
      PushQueues(now, ready, id, places[id]);
      assert forall x :: x in ids[1..] ==> x in ids && x != id;
      assert forall x :: x in ids ==> x == id || x in ids[1..];
      PushAllQueues(now[id := places[id]], places, Push(ready, places[id], id), ids[1..]);
    }
  }

  /** `requeue_proc_threads`: the threads in `m` move to the places they now have. */
  function Requeue(ready: ReadyTable, places: seq<Place>, m: set<nat>): (r: ReadyTable)
    requires Shaped(ready)
    requires forall id :: id in Gather(ready, m, MAX_HARTS, 0) ==>
      id < |places| && places[id].At? && InRange(places[id])
  {
    PushAll(Strip(ready, m), places, Gather(ready, m, MAX_HARTS, 0))
  }

  /** What a change of the threads in `m` may do to the places: queued threads stay queued. */
  ghost predicate Shifts(places: seq<Place>, places': seq<Place>, m: set<nat>) {
    && |places'| == |places|
    && forall id: nat :: id < |places| ==>
         && InRange(places'[id])
         && (if id in m then places'[id] == Nowhere <==> places[id] == Nowhere else places'[id] == places[id])
  }

  lemma RequeueQueues(places: seq<Place>, places': seq<Place>, ready: ReadyTable, m: set<nat>)
    requires Queues(places, ready) && Shifts(places, places', m)
    ensures forall id :: id in Gather(ready, m, MAX_HARTS, 0) ==>
      id < |places'| && places'[id].At? && InRange(places'[id])
    ensures Queues(places', Requeue(ready, places', m))
  {
    var ids := Gather(ready, m, MAX_HARTS, 0);
    GatherFacts(places, ready, m, MAX_HARTS, 0);
    StripQueues(places, ready, m);
    PushAllQueues(Unplaced(places, m), places', Strip(ready, m), ids);
  }

  /** The buffer of `requeue_proc_threads` cannot overflow. */
  lemma GatherFits(places: seq<Place>, ready: ReadyTable, m: set<nat>, h: nat, l: nat)
    requires Queues(places, ready) && h <= MAX_HARTS && l <= PRIO_LEVELS && (h == MAX_HARTS ==> l == 0)
    ensures |Gather(ready, m, h, l)| <= |places|
  {
    GatherFacts(places, ready, m, h, l);
    NoDupBound(Gather(ready, m, h, l), |places|);
  }

  lemma {:induction false} NoDupBound(l: seq<nat>, n: nat)
    requires NoDup(l) && forall x :: x in l ==> x < n
    ensures |l| <= n
    decreases n
  {
    if n == 0 {
      assert forall i :: 0 <= i < |l| ==> l[i] in l;
    } else {
      WithoutFacts(l, n - 1);
      NoDupBound(Without(l, n - 1), n - 1);
      WithoutLength(l, n - 1);
    }
  }

  lemma {:induction false} WithoutLength(l: seq<nat>, x: nat)
    ensures |Without(l, x)| == if x in l then |l| - 1 else |l|
  {
    if l != [] && l[0] != x {
      WithoutLength(l[1..], x);
    }
  }
}
