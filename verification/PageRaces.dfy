/**
  Two grants that get in each other's way: exactly when the late writes of `mem_grant` keep one holder for
  every page, and the runs in which they do not.
*/
module PageRaces {
  import opened Common
  import opened Pages
  import opened PageGrants

  // ----- Exactly when -----

  predicate SlotsOf(t: State, f: Flight) {
    Slots(t, f.caller, f.src, f.peer, f.dst)
  }

  function MovedBy(t: State, f: Flight): (r: State)
    requires SlotsOf(t, f) && f.id < |t.pages|
  {
    Moved(t, f.caller, f.src, f.peer, f.dst, f.id)
  }

  predicate SameSrc(f: Flight, g: Flight) {
    f.caller == g.caller && f.src == g.src
  }

  predicate SameDst(f: Flight, g: Flight) {
    f.peer == g.peer && f.dst == g.dst
  }

  /** The slot holds no page. */
  predicate Pageless(t: State, q: nat, k: nat)
    requires q < |t.procs| && k < |t.procs[q].caps|
  {
    t.procs[q].caps[k].None? || !t.procs[q].caps[k].value.ToPage?
  }

  /** What a grant read is still so, as far as it matters. */
  predicate Fits(t: State, f: Flight)
    requires SlotsOf(t, f) && f.id < |t.pages|
  {
    if (f.caller, f.src) == (f.peer, f.dst) then t.pages[f.id].owner == f.peer && Pageless(t, f.peer, f.dst)
    else Carries(t, f.caller, f.src, f.peer, f.dst, f.id)
  }

  lemma MovedSlots(t: State, f: Flight, q: nat, k: nat)
    requires Sized(t) && SlotsOf(t, f) && f.id < |t.pages| && q < |t.procs| && k < MAX_CAPS
    ensures var r := MovedBy(t, f);
            && |r.procs| == |t.procs| && r.procs[q].alive == t.procs[q].alive && |r.procs[q].caps| == MAX_CAPS
            && r.procs[q].caps[k] == if (q, k) == (f.caller, f.src) then None
                                     else if (q, k) == (f.peer, f.dst) then Some(ToPage(f.id))
                                     else t.procs[q].caps[k]
  {
    RegrantedSlot(t, f.id, f.peer, q);
    RegrantedSlot(t, f.id, f.peer, f.caller);
    RegrantedSlot(t, f.id, f.peer, f.peer);
  }

  /** A page whose slot is overwritten by something else has no holder left. */
  lemma LosesPage(t: State, r: State, q: nat, k: nat, x: nat)
    requires Inv(t) && Holds(t, q, k, x) && Registered(r, x)
    requires forall p: nat, l: nat :: Holds(r, p, l, x) ==> Holds(t, p, l, x)
    requires !Holds(r, q, k, x)
    ensures (forall p: nat, l: nat :: !Holds(r, p, l, x)) && !Inv(r)
  {
    forall p: nat, l: nat ensures !Holds(r, p, l, x) {
      if Holds(r, p, l, x) { OneHolder(t, p, l, q, k, x); }
    }
    assert !IsHeld(r, x);
  }

  lemma MovedHolders(t: State, f: Flight, q: nat, k: nat, x: nat)
    requires Sized(t) && SlotsOf(t, f) && f.id < |t.pages|
    ensures Holds(MovedBy(t, f), q, k, x) <==>
              && (q, k) != (f.caller, f.src)
              && if (q, k) == (f.peer, f.dst) then x == f.id else Holds(t, q, k, x)
  {
    MovedSlots(t, f, f.caller, f.src);
    if q < |t.procs| { MovedSlots(t, f, q, if k < MAX_CAPS then k else 0); }
  }

  lemma MovedRecords(t: State, f: Flight)
    requires SlotsOf(t, f) && f.id < |t.pages|
    ensures MovedBy(t, f).pages == t.pages[f.id := t.pages[f.id].(owner := f.peer, mapVa := None)]
  {
  }

  /** A slot of the move held another page. */
  lemma OverwritesPage(t: State, f: Flight, q: nat, k: nat, x: nat)
    requires Inv(t) && SlotsOf(t, f) && Registered(t, f.id) && Holds(t, q, k, x)
    requires ((q, k) == (f.caller, f.src)) || ((q, k) == (f.peer, f.dst) && x != f.id)
    requires x == f.id ==> (f.caller, f.src) == (f.peer, f.dst)
    ensures (forall p: nat, l: nat :: !Holds(MovedBy(t, f), p, l, x)) && !Inv(MovedBy(t, f))
  {
    var r := MovedBy(t, f);
    MovedRecords(t, f);
    assert Registered(t, x);
    forall p: nat, l: nat ensures Holds(r, p, l, x) ==> Holds(t, p, l, x) {
      MovedHolders(t, f, p, l, x);
    }
    MovedHolders(t, f, q, k, x);
    LosesPage(t, r, q, k, x);
  }

  /** The page is in a third slot, and stays there. */
  lemma LeavesHolder(t: State, f: Flight, k: nat)
    requires Inv(t) && SlotsOf(t, f) && Registered(t, f.id) && Holds(t, t.pages[f.id].owner, k, f.id)
    requires var a := t.pages[f.id].owner; (a, k) != (f.caller, f.src) && (a, k) != (f.peer, f.dst)
    requires (f.caller, f.src) == (f.peer, f.dst) ==> t.pages[f.id].owner != f.peer
    ensures Holds(MovedBy(t, f), t.pages[f.id].owner, k, f.id) && !Inv(MovedBy(t, f))
  {
    var a, r := t.pages[f.id].owner, MovedBy(t, f);
    MovedHolders(t, f, a, k, f.id);
    MovedHolders(t, f, f.peer, f.dst, f.id);
    MovedRecords(t, f);
    if Inv(r) && a == f.peer { OneHolder(r, a, k, f.peer, f.dst, f.id); }
  }

  /** A move from a slot to itself that finds no page there only takes the page's mapping away. */
  lemma IdleMove(t: State, f: Flight)
    requires Inv(t) && SlotsOf(t, f) && Registered(t, f.id) && (f.caller, f.src) == (f.peer, f.dst)
    requires t.pages[f.id].owner == f.peer && Pageless(t, f.peer, f.dst)
    ensures Inv(MovedBy(t, f))
  {
    var r := MovedBy(t, f);
    UnmappedMaps(t, f.id);
    MovedRecords(t, f);
    forall q: nat, k: nat, x: nat ensures Holds(r, q, k, x) <==> Holds(t, q, k, x) {
      MovedHolders(t, f, q, k, x);
    }
    SameHeld(t, r);
    assert Leaves(t, r, f.id);
  }

  /**
    A move keeps the invariant exactly when one of its slots holds the page and neither holds another; from
    a slot to itself, exactly when that slot holds none and the page is the same process's.
  */
  lemma MovedIff(t: State, f: Flight)
    requires Inv(t) && SlotsOf(t, f) && Registered(t, f.id)
    ensures Inv(MovedBy(t, f)) <==> Fits(t, f)
  {
    var c, d := t.procs[f.caller].caps[f.src], t.procs[f.peer].caps[f.dst];
    var same := (f.caller, f.src) == (f.peer, f.dst);
    assert IsHeld(t, f.id);
    var k: nat :| Holds(t, t.pages[f.id].owner, k, f.id);
    if Fits(t, f) {
      if same { IdleMove(t, f); } else { MovedInv(t, f.caller, f.src, f.peer, f.dst, f.id); }
    } else if c.Some? && c.value.ToPage? && (same || c.value.id != f.id) {
      OverwritesPage(t, f, f.caller, f.src, c.value.id);
    } else if !same && d.Some? && d.value.ToPage? && d.value.id != f.id {
      OverwritesPage(t, f, f.peer, f.dst, d.value.id);
    } else {
      LeavesHolder(t, f, k);
    }
  }

  /**
    Handing a page over, whatever other grants are in progress: the invariant holds after all of them
    exactly when what the grant read is still so in the state that the others lead to.
  */
  lemma HandIff(m: Mach, i: nat)
    requires Sized(m.s) && i < |m.jobs| && m.jobs[i].at == Ready && Registered(m.s, m.jobs[i].f.id)
    requires var t := Settled(m.s, m.jobs); Inv(t) && SlotsOf(t, m.jobs[i].f)
    ensures var r, f, t := Next(m, Advance(i)), m.jobs[i].f, Settled(m.s, m.jobs);
            Registered(t, f.id) && (Inv(Settled(r.s, r.jobs)) <==> Fits(t, f))
  {
    SettledFrame(m.s, m.jobs);
    HandMoves(m, i);
    MovedIff(Settled(m.s, m.jobs), m.jobs[i].f);
  }

  // ----- Two grants at once -----

  /** All checks of the grant pass in `s`. */
  predicate Passes(s: State, f: Flight, via: nat)
    requires Sized(s)
  {
    && CapTarget(s, f.caller, f.src) == Found(ToPage(f.id)) && CapTarget(s, f.caller, via) == Found(ToProc(f.peer))
    && Alive(s, f.peer) && f.dst < MAX_CAPS && CapTarget(s, f.peer, f.dst) == Missing
  }

  /** The checks are those of the uninterrupted call. */
  lemma PassesAlone(s: State, f: Flight, via: nat)
    requires Inv(s) && Passes(s, f, via)
    ensures SlotsOf(s, f) && Registered(s, f.id) && Fits(s, f)
    ensures MemGrant(s, f.caller, f.src, via, f.dst) == (MovedBy(s, f), None)
  {
    assert Holds(s, f.caller, f.src, f.id);
  }

  /** Both grants do all their checks, then `g` does all its writes, then `f`. */
  function Race(f: Flight, fVia: nat, g: Flight, gVia: nat): (r: seq<Move>) {
    var both := [Begin(f.caller, f.src, fVia, f.dst), Begin(g.caller, g.src, gVia, g.dst)];
    both + [Advance(0), Advance(0), Advance(0)] + [Advance(1), Advance(1), Advance(1)]
    + [Advance(1), Advance(1), Advance(1)] + [Advance(0), Advance(0), Advance(0)]
  }

  lemma {:induction false} ExecJoin(m: Mach, a: seq<Move>, b: seq<Move>, r: Mach)
    requires r == Exec(m, a) && AllMade(m, a)
    ensures Exec(m, a + b) == Exec(r, b)
    decreases |a|
  {
    if a == [] {
      assert a + b == b;
    } else {
      assert (a + b)[0] == a[0] && (a + b)[1..] == a[1..] + b;
      ExecJoin(Next(m, a[0]), a[1..], b, r);
    }
  }

  /** The run makes all its steps. */
  ghost predicate AllMade(m: Mach, moves: seq<Move>)
    decreases |moves|, m
  {
    moves != [] ==> Sized(m.s) && CanMove(m, moves[0]) && AllMade(Next(m, moves[0]), moves[1..])
  }

  lemma ExecOne(m: Mach, move: Move)
    requires Sized(m.s) && CanMove(m, move)
    ensures AllMade(m, [move]) && Exec(m, [move]) == Next(m, move)
  {
    assert [move][1..] == [];
  }

  /** Three steps of grant `i`. */
  lemma Thrice(a: Mach, b: Mach, c: Mach, d: Mach, i: nat)
    requires Sized(a.s) && Sized(b.s) && Sized(c.s) && i < |a.jobs| && i < |b.jobs| && i < |c.jobs|
    requires b == Next(a, Advance(i)) && c == Next(b, Advance(i)) && d == Next(c, Advance(i))
    ensures var three := [Advance(i), Advance(i), Advance(i)]; AllMade(a, three) && Exec(a, three) == d
  {
    var one, two := [Advance(i)], [Advance(i), Advance(i)];
    assert two[1..] == one && [Advance(i), Advance(i), Advance(i)][1..] == two;
    ExecOne(c, Advance(i));
    assert Exec(b, two) == d && AllMade(b, two);
  }

  lemma ChecksRun(s: State, jobs: seq<Job>, i: nat, f: Flight, via: nat)
    requires Sized(s) && Passes(s, f, via) && i < |jobs| && jobs[i] == Job(f.(peer := 0), via, SawPage)
    ensures var three := [Advance(i), Advance(i), Advance(i)];
            AllMade(Mach(s, jobs), three) && Exec(Mach(s, jobs), three) == Mach(s, jobs[i := Job(f, via, Ready)])
  {
    var a, b, c := jobs[i := Job(f, via, SawPeer)], jobs[i := Job(f, via, SawAlive)], jobs[i := Job(f, via, Ready)];
    assert a[i := Job(f, via, SawAlive)] == b && b[i := Job(f, via, Ready)] == c;
    Thrice(Mach(s, jobs), Mach(s, a), Mach(s, b), Mach(s, c), i);
  }

  lemma WritesRun(s: State, jobs: seq<Job>, i: nat)
    requires Sized(s) && |jobs| == i + 1 && jobs[i].at == Ready && Registered(s, jobs[i].f.id) && SlotsOf(s, jobs[i].f)
    ensures var three := [Advance(i), Advance(i), Advance(i)];
            && AllMade(Mach(s, jobs), three) && Exec(Mach(s, jobs), three) == Mach(MovedBy(s, jobs[i].f), jobs[..i])
            && Sized(MovedBy(s, jobs[i].f))
  {
    var f, j := jobs[i].f, jobs[i];
    var a := Mach(Regranted(s, f.id, f.peer), jobs[i := j.(at := Handed)]);
    var b := Mach(Put(a.s, f.peer, f.dst, Some(ToPage(f.id))), jobs[i := j.(at := Placed)]);
    assert jobs[..i] + jobs[i + 1..] + [j.(at := Handed)] == a.jobs;
    assert a.jobs[i := j.(at := Placed)] == b.jobs && b.jobs[..i] + b.jobs[i + 1..] == jobs[..i];
    WritesSized(s, f);
    RegrantedSlot(s, f.id, f.peer, f.caller);
    RegrantedSlot(s, f.id, f.peer, f.peer);
    Thrice(Mach(s, jobs), a, b, Mach(MovedBy(s, f), jobs[..i]), i);
  }

  lemma WritesSized(s: State, f: Flight)
    requires Sized(s) && f.id < |s.pages| && SlotsOf(s, f)
    ensures var a := Regranted(s, f.id, f.peer);
            Sized(a) && Sized(Put(a, f.peer, f.dst, Some(ToPage(f.id)))) && Sized(MovedBy(s, f))
  {
    forall q | 0 <= q < |s.procs| ensures ProcOk(Regranted(s, f.id, f.peer).procs[q]) {
      RegrantedSlot(s, f.id, f.peer, q);
    }
  }

  /**
    Of two grants whose checks passed in the same state, the second move keeps the invariant exactly when
    they share neither slot, or both.
  */
  lemma TwoMovesIff(t: State, f: Flight, fVia: nat, g: Flight, gVia: nat)
    requires Inv(t) && Passes(t, f, fVia) && Passes(t, g, gVia)
    ensures SlotsOf(t, g) && Registered(t, g.id)
    ensures var u := MovedBy(t, g);
            && Inv(u) && SlotsOf(u, f) && Registered(u, f.id)
            && (Inv(MovedBy(u, f)) <==> (SameSrc(f, g) <==> SameDst(f, g)))
  {
    PassesAlone(t, f, fVia);
    PassesAlone(t, g, gVia);
    MovedIff(t, g);
    var u := MovedBy(t, g);
    MovedSlots(t, g, f.caller, f.src);
    MovedSlots(t, g, f.peer, f.dst);
    MovedRecords(t, g);
    if !SameSrc(f, g) { assert f.id != g.id by { Differ(t, f, g); } }
    MovedIff(u, f);
  }

  lemma Differ(t: State, f: Flight, g: Flight)
    requires Inv(t) && Holds(t, f.caller, f.src, f.id) && Holds(t, g.caller, g.src, g.id) && !SameSrc(f, g)
    ensures f.id != g.id
  {
    if f.id == g.id { OneHolder(t, f.caller, f.src, g.caller, g.src, f.id); }
  }

  lemma RaceChecks(s: State, f: Flight, fVia: nat, g: Flight, gVia: nat)
    requires Sized(s) && Passes(s, f, fVia) && Passes(s, g, gVia)
    ensures var both := [Begin(f.caller, f.src, fVia, f.dst), Begin(g.caller, g.src, gVia, g.dst)];
            var m, r := Mach(s, []), Mach(s, [Job(f.(peer := 0), fVia, SawPage), Job(g.(peer := 0), gVia, SawPage)]);
            AllMade(m, both) && Exec(m, both) == r
  {
    var b, c := Begin(f.caller, f.src, fVia, f.dst), Begin(g.caller, g.src, gVia, g.dst);
    var m := Mach(s, []);
    var m1 := Next(m, b);
    assert m1.jobs == [Job(f.(peer := 0), fVia, SawPage)];
    assert Next(m1, c).jobs == [Job(f.(peer := 0), fVia, SawPage), Job(g.(peer := 0), gVia, SawPage)];
    assert [b, c][1..] == [c];
    ExecOne(m1, c);
  }

  /** After all checks both grants are ready, and nothing has changed. */
  lemma RaceReady(s: State, f: Flight, fVia: nat, g: Flight, gVia: nat, rest: seq<Move>)
    requires Sized(s) && Passes(s, f, fVia) && Passes(s, g, gVia)
    ensures var both := [Begin(f.caller, f.src, fVia, f.dst), Begin(g.caller, g.src, gVia, g.dst)];
            var zero, one := [Advance(0), Advance(0), Advance(0)], [Advance(1), Advance(1), Advance(1)];
            var r := Mach(s, [Job(f, fVia, Ready), Job(g, gVia, Ready)]);
            Exec(Mach(s, []), both + (zero + (one + rest))) == Exec(r, rest)
  {
    var both := [Begin(f.caller, f.src, fVia, f.dst), Begin(g.caller, g.src, gVia, g.dst)];
    var zero, one := [Advance(0), Advance(0), Advance(0)], [Advance(1), Advance(1), Advance(1)];
    var jf, jg := Job(f.(peer := 0), fVia, SawPage), Job(g.(peer := 0), gVia, SawPage);
    var rf, rg := Job(f, fVia, Ready), Job(g, gVia, Ready);
    RaceChecks(s, f, fVia, g, gVia);
    ChecksRun(s, [jf, jg], 0, f, fVia);
    assert [jf, jg][0 := rf] == [rf, jg] && [rf, jg][1 := rg] == [rf, rg];
    ChecksRun(s, [rf, jg], 1, g, gVia);
    ExecJoin(Mach(s, []), both, zero + (one + rest), Mach(s, [jf, jg]));
    ExecJoin(Mach(s, [jf, jg]), zero, one + rest, Mach(s, [rf, jg]));
    ExecJoin(Mach(s, [rf, jg]), one, rest, Mach(s, [rf, rg]));
  }

  lemma RaceWrites(s: State, u: State, rf: Job, rg: Job)
    requires Sized(s) && rf.at == Ready && rg.at == Ready && Registered(s, rg.f.id) && SlotsOf(s, rg.f)
    requires u == MovedBy(s, rg.f) && SlotsOf(u, rf.f) && Registered(u, rf.f.id)
    ensures var zero, one := [Advance(0), Advance(0), Advance(0)], [Advance(1), Advance(1), Advance(1)];
            Exec(Mach(s, [rf, rg]), one + zero) == Mach(MovedBy(u, rf.f), [])
  {
    var zero, one := [Advance(0), Advance(0), Advance(0)], [Advance(1), Advance(1), Advance(1)];
    WritesRun(s, [rf, rg], 1);
    assert [rf, rg][..1] == [rf] && [rf][..0] == [];
    WritesRun(u, [rf], 0);
    ExecJoin(Mach(s, [rf, rg]), one, zero, Mach(u, [rf]));
  }

  /** Where the interleaved run of the two grants ends. */
  lemma RaceEnds(s: State, f: Flight, fVia: nat, g: Flight, gVia: nat, u: State)
    requires Inv(s) && Passes(s, f, fVia) && Passes(s, g, gVia) && SlotsOf(s, g) && Registered(s, g.id)
    requires u == MovedBy(s, g) && SlotsOf(u, f) && Registered(u, f.id)
    ensures Exec(Mach(s, []), Race(f, fVia, g, gVia)) == Mach(MovedBy(u, f), [])
  {
    var zero, one := [Advance(0), Advance(0), Advance(0)], [Advance(1), Advance(1), Advance(1)];
    var both := [Begin(f.caller, f.src, fVia, f.dst), Begin(g.caller, g.src, gVia, g.dst)];
    RaceReady(s, f, fVia, g, gVia, one + zero);
    RaceWrites(s, u, Job(f, fVia, Ready), Job(g, gVia, Ready));
    RaceSplit(both, zero, one);
  }

  lemma RaceSplit(both: seq<Move>, zero: seq<Move>, one: seq<Move>)
    ensures both + zero + one + one + zero == both + (zero + (one + (one + zero)))
  {
    assert one + one + zero == one + (one + zero);
  }

  /**
    Two grants that would each succeed, with all checks before all writes: the invariant holds at the end
    exactly when they share neither slot or both. If they share the destination alone, the page that came
    first has no holder; if they share the source alone, the page has two.
  */
  lemma RaceIff(s: State, f: Flight, fVia: nat, g: Flight, gVia: nat)
    requires Inv(s) && Passes(s, f, fVia) && Passes(s, g, gVia)
    ensures var r := Exec(Mach(s, []), Race(f, fVia, g, gVia));
            && r.jobs == [] && (Inv(r.s) <==> (SameSrc(f, g) <==> SameDst(f, g)))
            && (SameDst(f, g) && !SameSrc(f, g) ==> forall q: nat, k: nat :: !Holds(r.s, q, k, g.id))
            && (SameSrc(f, g) && !SameDst(f, g) ==>
                  Holds(r.s, f.peer, f.dst, f.id) && Holds(r.s, g.peer, g.dst, f.id))
  {
    TwoMovesIff(s, f, fVia, g, gVia);
    var u := MovedBy(s, g);
    RaceEnds(s, f, fVia, g, gVia, u);
    if SameDst(f, g) && !SameSrc(f, g) {
      RaceLoses(s, f, g, u);
    } else if SameSrc(f, g) && !SameDst(f, g) {
      RaceDoubles(s, f, g, u);
    }
  }

  lemma RaceLoses(s: State, f: Flight, g: Flight, u: State)
    requires Inv(s) && Inv(u) && SlotsOf(s, g) && Registered(s, g.id) && u == MovedBy(s, g) && SlotsOf(u, f)
    requires Registered(u, f.id)
    requires Holds(s, f.caller, f.src, f.id) && Holds(s, g.caller, g.src, g.id) && SameDst(f, g) && !SameSrc(f, g)
    requires (g.caller, g.src) != (g.peer, g.dst)
    ensures forall q: nat, k: nat :: !Holds(MovedBy(u, f), q, k, g.id)
  {
    Differ(s, f, g);
    MovedHolders(s, g, g.peer, g.dst, g.id);
    forall q: nat, k: nat ensures !Holds(MovedBy(u, f), q, k, g.id) {
      MovedHolders(u, f, q, k, g.id);
      if Holds(u, q, k, g.id) { OneHolder(u, q, k, g.peer, g.dst, g.id); }
    }
  }

  lemma RaceDoubles(s: State, f: Flight, g: Flight, u: State)
    requires Inv(s) && Inv(u) && SlotsOf(s, g) && Registered(s, g.id) && u == MovedBy(s, g) && SlotsOf(u, f)
    requires Registered(u, f.id)
    requires f.id == g.id && SameSrc(f, g) && !SameDst(f, g)
    requires (g.caller, g.src) != (g.peer, g.dst) && (f.caller, f.src) != (f.peer, f.dst)
    ensures Holds(MovedBy(u, f), f.peer, f.dst, f.id) && Holds(MovedBy(u, f), g.peer, g.dst, f.id)
  {
    MovedHolders(s, g, g.peer, g.dst, g.id);
    MovedHolders(u, f, f.peer, f.dst, f.id);
    MovedHolders(u, f, g.peer, g.dst, f.id);
  }

  // ----- It does happen -----

  /** A process with the given capabilities in its first slots, and nothing mapped. */
  function Running(caps: seq<Option<Cap>>): (r: Proc)
    requires |caps| <= MAX_CAPS
  {
    Proc(true, caps + seq(MAX_CAPS - |caps|, i => None), map[])
  }

  /** Nothing is mapped, and every page is in slot 0 of its owner. */
  lemma UnmappedInv(s: State)
    requires Sized(s) && s.freeIds == [] && s.pool == {} && forall q :: 0 <= q < |s.procs| ==> s.procs[q].space == map[]
    requires forall i :: 0 <= i < |s.pages| ==> s.pages[i] == Rec(true, 4096 * i + 4096, s.pages[i].owner, None)
    requires forall q: nat, k: nat, id: nat :: Holds(s, q, k, id) <==>
      k == 0 && id < |s.pages| && q == s.pages[id].owner
    ensures Inv(s)
  {
    forall id: nat | id < |s.pages| ensures IsHeld(s, id) {
      assert Holds(s, s.pages[id].owner, 0, id);
    }
  }

  /** Processes 0 and 1 both grant their page into slot 0 of process 2. */
  lemma LostInRace(s: State)
    requires s == State([Running([Some(ToPage(0)), Some(ToProc(2))]),
                         Running([Some(ToPage(1)), Some(ToProc(2))]), Running([])],
                        [Rec(true, 4096, 0, None), Rec(true, 8192, 1, None)], [], {})
    ensures var r := Exec(Mach(s, []), Race(Flight(1, 0, 2, 0, 1), 1, Flight(0, 0, 2, 0, 0), 1));
            Inv(s) && r.jobs == [] && !Inv(r.s) && forall q: nat, k: nat :: !Holds(r.s, q, k, 0)
  {
    assert forall q: nat, k: nat, id: nat :: Holds(s, q, k, id) <==> k == 0 && q == id && q < 2;
    UnmappedInv(s);
    RaceIff(s, Flight(1, 0, 2, 0, 1), 1, Flight(0, 0, 2, 0, 0), 1);
  }

  /** Two threads of process 0 grant the same page, to process 1 and to process 2. */
  lemma TwoHoldersInRace(s: State)
    requires s == State([Running([Some(ToPage(0)), Some(ToProc(1)), Some(ToProc(2))]), Running([]), Running([])],
                        [Rec(true, 4096, 0, None)], [], {})
    ensures var r := Exec(Mach(s, []), Race(Flight(0, 0, 1, 0, 0), 1, Flight(0, 0, 2, 0, 0), 2));
            Inv(s) && r.jobs == [] && !Inv(r.s) && Holds(r.s, 1, 0, 0) && Holds(r.s, 2, 0, 0)
  {
    assert forall q: nat, k: nat, id: nat :: Holds(s, q, k, id) <==> k == 0 && q == 0 && id == 0;
    UnmappedInv(s);
    RaceIff(s, Flight(0, 0, 1, 0, 0), 1, Flight(0, 0, 2, 0, 0), 2);
  }
}
