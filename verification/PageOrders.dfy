/** The writes of two grants in every order, after both have made their checks. */
module PageOrders {
  import opened Common
  import opened Pages
  import opened PageGrants
  import opened PageRaces

  /** A grant that has made `n` of its three writes: the registry, the peer's slot, the caller's slot. */
  function Doing(f: Flight, via: nat, n: nat): (r: seq<Job>) {
    if n == 0 then [Job(f, via, Ready)] else if n == 1 then [Job(f, via, Handed)]
    else if n == 2 then [Job(f, via, Placed)] else []
  }

  ghost predicate Both(m: Mach, f: Flight, fVia: nat, a: nat, g: Flight, gVia: nat, b: nat) {
    && a <= 3 && b <= 3
    && (m.jobs == Doing(f, fVia, a) + Doing(g, gVia, b) || m.jobs == Doing(g, gVia, b) + Doing(f, fVia, a))
  }

  /** Write number `n` of a grant. */
  function Write(s: State, f: Flight, n: nat): (r: State)
    requires f.id < |s.pages|
  {
    if n == 0 then Regranted(s, f.id, f.peer)
    else if n == 1 then Put(s, f.peer, f.dst, Some(ToPage(f.id))) else Put(s, f.caller, f.src, None)
  }

  /** Both pages are registered and both peers alive, so every write is made. */
  predicate Writable(s: State, f: Flight) {
    Registered(s, f.id) && Alive(s, f.peer)
  }

  /** The job at `i` makes its next write. */
  lemma AdvanceWrites(m: Mach, f: Flight, via: nat, n: nat, i: nat)
    requires Sized(m.s) && i < |m.jobs| && n < 3 && [m.jobs[i]] == Doing(f, via, n) && Writable(m.s, f)
    ensures var rest, r := m.jobs[..i] + m.jobs[i + 1..], Next(m, Advance(i));
            && r.s == Write(m.s, f, n)
            && r.jobs == if n == 0 then rest + Doing(f, via, 1)
                         else m.jobs[..i] + Doing(f, via, n + 1) + m.jobs[i + 1..]
  {
    assert m.jobs[i] == Doing(f, via, n)[0];
  }

  /** A step of two grants that stand in this order. */
  lemma PairStep(m: Mach, f: Flight, fVia: nat, a: nat, g: Flight, gVia: nat, b: nat, i: nat)
    requires Sized(m.s) && a <= 3 && b <= 3 && m.jobs == Doing(f, fVia, a) + Doing(g, gVia, b)
    requires i < |m.jobs| && Writable(m.s, f) && Writable(m.s, g)
    ensures m.jobs[i].at != SawPage
    ensures var r := Next(m, Advance(i));
            || (a < 3 && Both(r, f, fVia, a + 1, g, gVia, b) && r.s == Write(m.s, f, a))
            || (b < 3 && Both(r, f, fVia, a, g, gVia, b + 1) && r.s == Write(m.s, g, b))
  {
    var x, y := Doing(f, fVia, a), Doing(g, gVia, b);
    if i < |x| {
      AdvanceWrites(m, f, fVia, a, i);
      assert m.jobs[..i] == [] && m.jobs[i + 1..] == y;
    } else {
      AdvanceWrites(m, g, gVia, b, i);
      assert m.jobs[..i] == x && m.jobs[i + 1..] == [];
    }
  }

  /** A step is a write of one of the two. */
  lemma BothStep(m: Mach, f: Flight, fVia: nat, a: nat, g: Flight, gVia: nat, b: nat, i: nat)
    requires Sized(m.s) && Both(m, f, fVia, a, g, gVia, b) && i < |m.jobs| && Writable(m.s, f) && Writable(m.s, g)
    ensures m.jobs[i].at != SawPage
    ensures var r := Next(m, Advance(i));
            || (a < 3 && Both(r, f, fVia, a + 1, g, gVia, b) && r.s == Write(m.s, f, a))
            || (b < 3 && Both(r, f, fVia, a, g, gVia, b + 1) && r.s == Write(m.s, g, b))
  {
    if m.jobs == Doing(f, fVia, a) + Doing(g, gVia, b) {
      PairStep(m, f, fVia, a, g, gVia, b, i);
    } else {
      PairStep(m, g, gVia, b, f, fVia, a, i);
    }
  }

  // ----- The slots -----

  predicate Touched(f: Flight, q: nat, k: nat) {
    (q, k) == (f.caller, f.src) || (q, k) == (f.peer, f.dst)
  }

  /** The destination has the page of `f`, or that of `g`, which goes to the same slot. */
  predicate Arrived(r: State, f: Flight, g: Flight) {
    Holds(r, f.peer, f.dst, f.id) || (SameDst(f, g) && Holds(r, f.peer, f.dst, g.id))
  }

  predicate Gone(r: State, f: Flight) {
    f.caller < |r.procs| && f.src < |r.procs[f.caller].caps| && r.procs[f.caller].caps[f.src] == None
  }

  /** The processes are as in `s`, and so are the slots that neither grant writes. */
  ghost predicate Framed(s: State, r: State, f: Flight, g: Flight) {
    && Sized(r) && |r.procs| == |s.procs| && (forall q: nat :: Alive(r, q) <==> Alive(s, q))
    && forall q: nat, k: nat, id: nat :: !Touched(f, q, k) && !Touched(g, q, k) ==>
         (Holds(r, q, k, id) <==> Holds(s, q, k, id))
  }

  /** `r` is `s` after `a` writes of `f` and `b` writes of `g`, as far as the slots go. */
  ghost predicate Wrote(s: State, r: State, f: Flight, a: nat, g: Flight, b: nat) {
    && Framed(s, r, f, g) && Registered(r, f.id) && Registered(r, g.id)
    && (a >= 2 ==> Arrived(r, f, g)) && (b >= 2 ==> Arrived(r, g, f))
    && (a >= 3 ==> Gone(r, f)) && (b >= 3 ==> Gone(r, g))
  }

  /** The sources hold pages and the destinations are empty, so no source is a destination. */
  predicate FourSlots(s: State, f: Flight, g: Flight) {
    && SlotsOf(s, f) && SlotsOf(s, g) && Writable(s, f) && Writable(s, g)
    && (f.caller, f.src) != (f.peer, f.dst) && (f.caller, f.src) != (g.peer, g.dst)
    && (g.caller, g.src) != (f.peer, f.dst) && (g.caller, g.src) != (g.peer, g.dst)
  }

  lemma RegrantHolds(r: State, id: nat, to: nat)
    requires Sized(r) && id < |r.pages|
    ensures var u := Regranted(r, id, to);
            && Sized(u) && |u.procs| == |r.procs| && |u.pages| == |r.pages|
            && (forall q: nat, k: nat, x: nat :: Holds(u, q, k, x) <==> Holds(r, q, k, x))
            && (forall q: nat :: Alive(u, q) <==> Alive(r, q))
            && (forall x: nat :: Registered(u, x) <==> Registered(r, x))
  {
    forall q | 0 <= q < |r.procs| ensures ProcOk(Regranted(r, id, to).procs[q]) { RegrantedSlot(r, id, to, q); }
    var u := Regranted(r, id, to);
    forall q: nat, k: nat, x: nat ensures Holds(u, q, k, x) <==> Holds(r, q, k, x) {
      if q < |r.procs| { RegrantedSlot(r, id, to, q); }
    }
  }

  lemma WriteWrote(s: State, r: State, f: Flight, a: nat, g: Flight, b: nat)
    requires Sized(s) && FourSlots(s, f, g) && Wrote(s, r, f, a, g, b) && a < 3
    ensures Wrote(s, Write(r, f, a), f, a + 1, g, b)
  {
    if a == 0 { RegrantHolds(r, f.id, f.peer); }
  }

  lemma WroteSwap(s: State, r: State, f: Flight, a: nat, g: Flight, b: nat)
    ensures Wrote(s, r, f, a, g, b) <==> Wrote(s, r, g, b, f, a)
  {
  }

  // ----- The same grant twice -----

  /** The state after the first `n` writes. */
  function Level(s: State, f: Flight, n: nat): (r: State)
    requires f.id < |s.pages|
    ensures |r.pages| == |s.pages|
  {
    if n == 0 then s
    else if n == 1 then Regranted(s, f.id, f.peer)
    else if n == 2 then Put(Regranted(s, f.id, f.peer), f.peer, f.dst, Some(ToPage(f.id)))
    else Put(Put(Regranted(s, f.id, f.peer), f.peer, f.dst, Some(ToPage(f.id))), f.caller, f.src, None)
  }

  function Max(a: nat, b: nat): (r: nat) { if a < b then b else a }

  lemma PutTwice(s: State, q: nat, k: nat, c: Option<Cap>)
    ensures Put(Put(s, q, k, c), q, k, c) == Put(s, q, k, c)
  {
    if Alive(s, q) && k < |s.procs[q].caps| {
      assert s.procs[q].caps[k := c][k := c] == s.procs[q].caps[k := c];
    }
    assert Put(Put(s, q, k, c), q, k, c).procs == Put(s, q, k, c).procs;
  }

  /** Handing over again changes nothing. */
  lemma RegrantTwice(s: State, id: nat, to: nat)
    requires id < |s.pages|
    ensures Regranted(Regranted(s, id, to), id, to) == Regranted(s, id, to)
  {
    assert Regranted(Regranted(s, id, to), id, to).pages == Regranted(s, id, to).pages;
  }

  /** A write that has been made before changes nothing, and the next one leads on. */
  lemma LevelWrite(s: State, f: Flight, n: nat, k: nat)
    requires f.id < |s.pages| && k <= n <= 3 && k < 3 && (f.caller, f.src) != (f.peer, f.dst)
    ensures Write(Level(s, f, n), f, k) == Level(s, f, Max(n, k + 1))
  {
    var h, page := Regranted(s, f.id, f.peer), Some(ToPage(f.id));
    var p := Put(h, f.peer, f.dst, page);
    RegrantTwice(s, f.id, f.peer);
    PutTwice(h, f.peer, f.dst, page);
    PutTwice(p, f.caller, f.src, None);
    PutRegranted(h, f.id, f.peer, f.peer, f.dst, page);
    PutRegranted(p, f.id, f.peer, f.caller, f.src, None);
    PutPut(p, f.caller, f.src, None, f.peer, f.dst, page);
  }

  // ----- All orders -----

  ghost predicate Course(s: State, r: State, f: Flight, a: nat, g: Flight, b: nat) {
    Wrote(s, r, f, a, g, b) && (f == g ==> f.id < |s.pages| && r == Level(s, f, Max(a, b)))
  }

  lemma CourseStep(s: State, r: State, f: Flight, a: nat, g: Flight, b: nat)
    requires Sized(s) && FourSlots(s, f, g) && Course(s, r, f, a, g, b) && a < 3 && b <= 3
    ensures Course(s, Write(r, f, a), f, a + 1, g, b)
  {
    WriteWrote(s, r, f, a, g, b);
    if f == g { LevelWrite(s, f, Max(a, b), a); }
  }

  lemma CourseSwap(s: State, r: State, f: Flight, a: nat, g: Flight, b: nat)
    requires Course(s, r, f, a, g, b)
    ensures Course(s, r, g, b, f, a)
  {
    WroteSwap(s, r, f, a, g, b);
  }

  ghost predicate OnlyAdvances(moves: seq<Move>) {
    forall k :: 0 <= k < |moves| ==> moves[k].Advance?
  }

  lemma OrderStep(s: State, m: Mach, f: Flight, fVia: nat, a: nat, g: Flight, gVia: nat, b: nat, i: nat)
    returns (c: nat, d: nat)
    requires Sized(s) && FourSlots(s, f, g) && Both(m, f, fVia, a, g, gVia, b) && Course(s, m.s, f, a, g, b)
    requires i < |m.jobs|
    ensures var r := Next(m, Advance(i)); Both(r, f, fVia, c, g, gVia, d) && Course(s, r.s, f, c, g, d)
    ensures Apart(m, Advance(i))
  {
    BothStep(m, f, fVia, a, g, gVia, b, i);
    var r := Next(m, Advance(i));
    if a < 3 && Both(r, f, fVia, a + 1, g, gVia, b) && r.s == Write(m.s, f, a) {
      CourseStep(s, m.s, f, a, g, b);
      c, d := a + 1, b;
    } else {
      CourseSwap(s, m.s, f, a, g, b);
      CourseStep(s, m.s, g, b, f, a);
      CourseSwap(s, r.s, g, b + 1, f, a);
      c, d := a, b + 1;
    }
  }

  /** Whatever the order, the run ends after all six writes, and no step is a read. */
  lemma {:induction false} OrdersRun(s: State, m: Mach, f: Flight, fVia: nat, a: nat, g: Flight, gVia: nat, b: nat,
          moves: seq<Move>)
    requires Sized(s) && FourSlots(s, f, g) && Both(m, f, fVia, a, g, gVia, b) && Course(s, m.s, f, a, g, b)
    requires AllMade(m, moves) && OnlyAdvances(moves) && Exec(m, moves).jobs == []
    ensures Course(s, Exec(m, moves).s, f, 3, g, 3) && AllApartRun(m, moves)
    decreases |moves|
  {
    if moves != [] {
      var c, d := OrderStep(s, m, f, fVia, a, g, gVia, b, moves[0].i);
      OrdersRun(s, Next(m, moves[0]), f, fVia, c, g, gVia, d, moves[1..]);
    }
  }

  /** Both grants have made all their checks in `s`. */
  function Checked(s: State, f: Flight, fVia: nat, g: Flight, gVia: nat): (m: Mach) {
    Mach(s, [Job(f, fVia, Ready), Job(g, gVia, Ready)])
  }

  lemma ChecksGive(s: State, f: Flight, fVia: nat, g: Flight, gVia: nat)
    requires Inv(s) && Passes(s, f, fVia) && Passes(s, g, gVia)
    ensures Holds(s, f.caller, f.src, f.id) && Holds(s, g.caller, g.src, g.id)
    ensures FourSlots(s, f, g) && Course(s, s, f, 0, g, 0) && (SameSrc(f, g) && SameDst(f, g) ==> f == g)
    ensures Both(Checked(s, f, fVia, g, gVia), f, fVia, 0, g, gVia, 0)
  {
    PassesAlone(s, f, fVia);
    PassesAlone(s, g, gVia);
  }

  /** Grants that share no slot do not disturb each other. */
  lemma CheckedGood(s: State, f: Flight, fVia: nat, g: Flight, gVia: nat)
    requires Inv(s) && Passes(s, f, fVia) && Passes(s, g, gVia) && !SameSrc(f, g) && !SameDst(f, g)
    ensures Good(Checked(s, f, fVia, g, gVia))
  {
    var m := Checked(s, f, fVia, g, gVia);
    ChecksGive(s, f, fVia, g, gVia);
    SettledDrop(s, m.jobs, 1);
    SettledDrop(s, [m.jobs[0]], 0);
    assert m.jobs[..1] + m.jobs[2..] == [m.jobs[0]] && [m.jobs[0]][..0] + [m.jobs[0]][1..] == [];
    assert AllApart(m.jobs);
  }

  /** Two pages for one slot: one of them has no holder. */
  lemma OneLost(s: State, r: State, f: Flight, g: Flight)
    requires Inv(s) && FourSlots(s, f, g) && Wrote(s, r, f, 3, g, 3) && SameDst(f, g) && !SameSrc(f, g)
    requires Holds(s, f.caller, f.src, f.id) && Holds(s, g.caller, g.src, g.id)
    ensures !Inv(r)
    ensures (forall q: nat, k: nat :: !Holds(r, q, k, f.id)) || (forall q: nat, k: nat :: !Holds(r, q, k, g.id))
  {
    Differ(s, f, g);
    var lost := if Holds(r, f.peer, f.dst, f.id) then g else f;
    forall q: nat, k: nat ensures !Holds(r, q, k, lost.id) {
      if Holds(r, q, k, lost.id) && Holds(s, q, k, lost.id) { OneHolder(s, q, k, lost.caller, lost.src, lost.id); }
    }
    assert !IsHeld(r, lost.id);
  }

  /** One page for two slots: both hold it. */
  lemma TwoHold(s: State, r: State, f: Flight, g: Flight)
    requires Inv(s) && FourSlots(s, f, g) && Wrote(s, r, f, 3, g, 3) && SameSrc(f, g) && !SameDst(f, g)
    requires Holds(s, f.caller, f.src, f.id) && Holds(s, g.caller, g.src, g.id)
    ensures Holds(r, f.peer, f.dst, f.id) && Holds(r, g.peer, g.dst, f.id) && !Inv(r)
  {
    if Inv(r) { OneHolder(r, f.peer, f.dst, g.peer, g.dst, f.id); }
  }

  /**
    Two grants that would each succeed, with all checks before the first write and the writes in any order: the
    invariant holds at the end exactly when the two share neither slot or both. If they share the destination alone,
    one of the pages has no holder; if they share the source alone, the page has two.
  */
  lemma AnyOrderIff(s: State, f: Flight, fVia: nat, g: Flight, gVia: nat, moves: seq<Move>)
    requires Inv(s) && Passes(s, f, fVia) && Passes(s, g, gVia)
    requires var m := Checked(s, f, fVia, g, gVia);
             AllMade(m, moves) && OnlyAdvances(moves) && Exec(m, moves).jobs == []
    ensures var r := Exec(Checked(s, f, fVia, g, gVia), moves).s;
            && (Inv(r) <==> (SameSrc(f, g) <==> SameDst(f, g)))
            && (SameDst(f, g) && !SameSrc(f, g) ==>
                  (forall q: nat, k: nat :: !Holds(r, q, k, f.id)) || (forall q: nat, k: nat :: !Holds(r, q, k, g.id)))
            && (SameSrc(f, g) && !SameDst(f, g) ==> Holds(r, f.peer, f.dst, f.id) && Holds(r, g.peer, g.dst, f.id))
  {
    var m := Checked(s, f, fVia, g, gVia);
    var r := Exec(m, moves).s;
    ChecksGive(s, f, fVia, g, gVia);
    OrdersRun(s, m, f, fVia, 0, g, gVia, 0, moves);
    if SameSrc(f, g) && SameDst(f, g) {
      SameGrant(s, r, f, fVia);
    } else if SameDst(f, g) {
      OneLost(s, r, f, g);
    } else if SameSrc(f, g) {
      TwoHold(s, r, f, g);
    } else {
      CheckedGood(s, f, fVia, g, gVia);
      RunGood(m, moves);
    }
  }

  lemma SameGrant(s: State, r: State, f: Flight, via: nat)
    requires Inv(s) && Passes(s, f, via) && f.id < |s.pages| && r == Level(s, f, 3)
    ensures Inv(r)
  {
    PassesAlone(s, f, via);
    RegrantedSlot(s, f.id, f.peer, f.caller);
    RegrantedSlot(s, f.id, f.peer, f.peer);
    MovedIff(s, f);
  }
}
