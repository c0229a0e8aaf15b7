/** The table of reserved memory ranges: overlapping ranges are merged as they come in. */
module Fdt {
  const MAX_WORD: nat := 0xFFFF_FFFF_FFFF_FFFF
  const CAPACITY := 8

  datatype Range = Range(addr: nat, size: nat)

  /** `saturating_add` */
  function Sat(n: nat): (r: nat) {
    if n < MAX_WORD then n else MAX_WORD
  }

  function End(r: Range): (e: nat) {
    Sat(r.addr + r.size)
  }

  predicate In(p: nat, r: Range) {
    r.addr <= p < End(r)
  }

  ghost predicate Covers(tab: seq<Range>, p: nat) {
    exists j :: 0 <= j < |tab| && In(p, tab[j])
  }

  predicate Apart(r: Range, lo: nat, hi: nat) {
    End(r) <= lo || hi <= r.addr
  }

  ghost predicate Disjoint(tab: seq<Range>) {
    forall j, k :: 0 <= j < |tab| && 0 <= k < |tab| && j != k ==> Apart(tab[j], tab[k].addr, End(tab[k]))
  }

  /** Entry `i` is replaced by the last one, and the table shrinks. */
  function SwapOut(tab: seq<Range>, i: nat): (r: seq<Range>)
    requires i < |tab|
  {
    tab[i := tab[|tab| - 1]][..|tab| - 1]
  }

  /** What the scan of `add_reserved` has left, with the range it has grown. */
  datatype Scan = Scan(tab: seq<Range>, lo: nat, hi: nat, size: nat)

  function Merge(tab: seq<Range>, i: nat, lo: nat, hi: nat, size: nat): (r: Scan)
    requires i <= |tab|
    decreases |tab| - i, |tab|
  {
    if i == |tab| then Scan(tab, lo, hi, size)
    else
      var e := End(tab[i]);
      if lo < e && hi > tab[i].addr then
        var lo', hi' := if tab[i].addr < lo then tab[i].addr else lo, if e > hi then e else hi;
        Merge(SwapOut(tab, i), i, lo', hi', hi' - lo')
      else Merge(tab, i + 1, lo, hi, size)
  }

  lemma MergeOver(tab: seq<Range>, i: nat, lo: nat, hi: nat, size: nat)
    requires i < |tab| && lo < End(tab[i]) && hi > tab[i].addr
    ensures var lo', hi' := if tab[i].addr < lo then tab[i].addr else lo, if End(tab[i]) > hi then End(tab[i]) else hi;
            |SwapOut(tab, i)| >= i && Merge(tab, i, lo, hi, size) == Merge(SwapOut(tab, i), i, lo', hi', hi' - lo')
  {
  }

  /** `add_reserved` */
  function Add(tab: seq<Range>, addr: nat, size: nat): (r: seq<Range>) {
    if addr == 0 || size == 0 then tab
    else
      var s := Merge(tab, 0, addr, Sat(addr + size), size);
      if |s.tab| < CAPACITY then s.tab + [Range(s.lo, s.size)] else s.tab
  }

  // ----- Swapping out -----

  lemma SwapOutDisjoint(tab: seq<Range>, i: nat)
    requires Disjoint(tab) && i < |tab|
    ensures Disjoint(SwapOut(tab, i))
    ensures forall j :: 0 <= j < |SwapOut(tab, i)| ==> SwapOut(tab, i)[j] == tab[if j == i then |tab| - 1 else j]
    ensures forall j :: 0 <= j < |SwapOut(tab, i)| ==> Apart(SwapOut(tab, i)[j], tab[i].addr, End(tab[i]))
  {
  }

  lemma SwapOutCovers(tab: seq<Range>, i: nat, p: nat)
    requires i < |tab|
    ensures Covers(tab, p) <==> Covers(SwapOut(tab, i), p) || In(p, tab[i])
  {
    var r, n := SwapOut(tab, i), |tab| - 1;
    assert forall j :: 0 <= j < n ==> r[j] == tab[if j == i then n else j];
    if j :| 0 <= j < |tab| && In(p, tab[j]) {
      if j == n && i < n { assert In(p, r[i]); } else if j < n && j != i { assert In(p, r[j]); }
    }
  }

  // ----- The scan -----

  /** The grown range and the remaining entries cover what the table and the new range covered. */
  ghost predicate SameCover(tab: seq<Range>, lo: nat, hi: nat, s: Scan) {
    forall p: nat :: Covers(s.tab, p) || s.lo <= p < s.hi <==> Covers(tab, p) || lo <= p < hi
  }

  /** Growing over an entry that overlaps, and swapping it out, covers the same. */
  lemma CoverGrown(tab: seq<Range>, i: nat, lo: nat, hi: nat, s: Scan)
    requires i < |tab| && lo < End(tab[i]) && hi > tab[i].addr
    requires var lo', hi' := if tab[i].addr < lo then tab[i].addr else lo, if End(tab[i]) > hi then End(tab[i]) else hi;
             SameCover(SwapOut(tab, i), lo', hi', s)
    ensures SameCover(tab, lo, hi, s)
  {
    forall p: nat ensures Covers(s.tab, p) || s.lo <= p < s.hi <==> Covers(tab, p) || lo <= p < hi {
      SwapOutCovers(tab, i, p);
    }
  }

  lemma {:induction false} MergeFacts(tab: seq<Range>, i: nat, lo: nat, hi: nat, size: nat)
    requires i <= |tab| && Disjoint(tab) && lo <= hi <= MAX_WORD && hi == Sat(lo + size)
    requires forall j :: 0 <= j < i ==> Apart(tab[j], lo, hi)
    ensures var s := Merge(tab, i, lo, hi, size);
            && Disjoint(s.tab) && |s.tab| <= |tab| && SameCover(tab, lo, hi, s)
            && s.lo <= s.hi && s.hi == Sat(s.lo + s.size)
            && (forall j :: 0 <= j < |s.tab| ==> Apart(s.tab[j], s.lo, s.hi))
            && (|s.tab| == |tab| ==>
                  s == Scan(tab, lo, hi, size) && forall j :: 0 <= j < |tab| ==> Apart(tab[j], lo, hi))
    decreases |tab| - i, |tab|
  {
    if i < |tab| {
      var e := End(tab[i]);
      if lo < e && hi > tab[i].addr {
        var lo', hi' := if tab[i].addr < lo then tab[i].addr else lo, if e > hi then e else hi;
        var tab' := SwapOut(tab, i);
        SwapOutDisjoint(tab, i);
        MergeFacts(tab', i, lo', hi', hi' - lo');
        CoverGrown(tab, i, lo, hi, Merge(tab', i, lo', hi', hi' - lo'));
      } else {
        MergeFacts(tab, i + 1, lo, hi, size);
      }
    }
  }

  lemma {:induction false} MergeApart(tab: seq<Range>, i: nat, lo: nat, hi: nat, size: nat)
    requires i <= |tab| && forall j :: 0 <= j < |tab| ==> Apart(tab[j], lo, hi)
    ensures Merge(tab, i, lo, hi, size) == Scan(tab, lo, hi, size)
    decreases |tab| - i
  {
    if i < |tab| {
      MergeApart(tab, i + 1, lo, hi, size);
    }
  }

  lemma AppendCovers(tab: seq<Range>, x: Range, p: nat)
    ensures Covers(tab + [x], p) <==> Covers(tab, p) || In(p, x)
  {
    var r := tab + [x];
    if In(p, x) { assert In(p, r[|tab|]); }
    if j :| 0 <= j < |tab| && In(p, tab[j]) { assert In(p, r[j]); }
  }

  /** A range is refused only when the table is full and the range overlaps none of its entries. */
  ghost predicate Refused(tab: seq<Range>, addr: nat, size: nat) {
    |tab| >= CAPACITY && forall j :: 0 <= j < |tab| ==> Apart(tab[j], addr, Sat(addr + size))
  }

  predicate Ignored(addr: nat, size: nat) {
    addr == 0 || size == 0
  }

  /** The table stays disjoint and covers what it covered and the new range, unless that is ignored or refused. */
  lemma AddCorrect(tab: seq<Range>, addr: nat, size: nat)
    requires Disjoint(tab) && |tab| <= CAPACITY && addr <= MAX_WORD
    ensures var r := Add(tab, addr, size);
            && Disjoint(r) && |r| <= CAPACITY
            && (Ignored(addr, size) || Refused(tab, addr, size) ==> r == tab)
            && (!Ignored(addr, size) && !Refused(tab, addr, size) ==>
                  forall p: nat :: Covers(r, p) <==> Covers(tab, p) || In(p, Range(addr, size)))
  {
    if !Ignored(addr, size) {
      var hi := Sat(addr + size);
      MergeFacts(tab, 0, addr, hi, size);
      var s := Merge(tab, 0, addr, hi, size);
      if Refused(tab, addr, size) {
        MergeApart(tab, 0, addr, hi, size);
      } else {
        assert |s.tab| < CAPACITY;
        forall p: nat ensures Covers(s.tab + [Range(s.lo, s.size)], p) <==> Covers(tab, p) || In(p, Range(addr, size)) {
          AppendCovers(s.tab, Range(s.lo, s.size), p);
        }
      }
    }
  }

  // ----- Whole runs -----

  function AddAll(tab: seq<Range>, rs: seq<Range>): (r: seq<Range>)
    decreases |rs|
  {
    if rs == [] then tab else AddAll(Add(tab, rs[0].addr, rs[0].size), rs[1..])
  }

  /** No range of the run meets a full table that it does not overlap. */
  ghost predicate NeverRefused(tab: seq<Range>, rs: seq<Range>)
    decreases |rs|
  {
    rs != [] ==> !Refused(tab, rs[0].addr, rs[0].size) && NeverRefused(Add(tab, rs[0].addr, rs[0].size), rs[1..])
  }

  ghost predicate Given(rs: seq<Range>, p: nat) {
    exists k :: 0 <= k < |rs| && !Ignored(rs[k].addr, rs[k].size) && In(p, rs[k])
  }

  /**
    After any sequence of ranges the table is disjoint and covers what it covered before and nothing but that
    and the ranges; while it had room it denotes exactly their union.
  */
  lemma {:induction false} AddAllCorrect(tab: seq<Range>, rs: seq<Range>)
    requires Disjoint(tab) && |tab| <= CAPACITY && forall k :: 0 <= k < |rs| ==> rs[k].addr <= MAX_WORD
    ensures Disjoint(AddAll(tab, rs)) && |AddAll(tab, rs)| <= CAPACITY
    ensures forall p: nat :: Covers(tab, p) ==> Covers(AddAll(tab, rs), p)
    ensures forall p: nat :: Covers(AddAll(tab, rs), p) ==> Covers(tab, p) || Given(rs, p)
    ensures NeverRefused(tab, rs) ==> forall p: nat :: Covers(AddAll(tab, rs), p) <==> Covers(tab, p) || Given(rs, p)
    decreases |rs|
  {
    if rs != [] {
      var tab' := Add(tab, rs[0].addr, rs[0].size);
      AddCorrect(tab, rs[0].addr, rs[0].size);
      AddAllCorrect(tab', rs[1..]);
      forall p: nat ensures Given(rs, p) <==> Given(rs[1..], p) || (!Ignored(rs[0].addr, rs[0].size) && In(p, rs[0])) {
        if k :| 0 <= k < |rs| && !Ignored(rs[k].addr, rs[k].size) && In(p, rs[k]) {
          if k > 0 { assert rs[1..][k - 1] == rs[k]; }
        }
        if k :| 0 <= k < |rs[1..]| && !Ignored(rs[1..][k].addr, rs[1..][k].size) && In(p, rs[1..][k]) {
          assert rs[k + 1] == rs[1..][k];
        }
      }
    }
  }

  // ----- The table itself -----

  class BoardParams {
    const reserved: array<Range>
    var count: nat

    ghost predicate Valid()
      reads this, reserved
    {
      reserved.Length == CAPACITY && count <= CAPACITY
    }

    ghost function Table(): (t: seq<Range>)
      requires Valid()
      reads this, reserved
    {
      reserved[..count]
    }

    constructor ()
      ensures Valid() && Table() == [] && fresh(reserved)
    {
      reserved := new Range[CAPACITY](i => Range(0, 0));
      count := 0;
    }

    /** `add_reserved` */
    method AddReserved(addr: nat, size: nat)
      requires Valid()
      modifies this`count, reserved
      ensures Valid() && Table() == Add(old(Table()), addr, size)
    {
      if addr == 0 || size == 0 {
        return;
      }
      var lo, len := ScanTable(addr, size);
      if count < reserved.Length {
        ghost var tab := Table();
        reserved[count] := Range(lo, len);
        count := count + 1;
        assert Table() == tab + [Range(lo, len)];
      }
    }

    /** The last entry takes the place of entry `i`. */
    method Remove(i: nat)
      requires Valid() && i < count
      modifies this`count, reserved
      ensures Valid() && count == old(count) - 1 && Table() == SwapOut(old(Table()), i)
    {
      reserved[i] := reserved[count - 1];
      count := count - 1;
    }

    /** The scan of `add_reserved`: overlapping entries are swapped out and the range grows over them. */
    method ScanTable(addr: nat, size: nat) returns (lo: nat, len: nat)
      requires Valid()
      modifies this`count, reserved
      ensures Valid()
      ensures var s := Merge(old(Table()), 0, addr, Sat(addr + size), size);
              Table() == s.tab && lo == s.lo && len == s.size
    {
      lo, len := addr, size;
      var hi: nat := Sat(addr + size);
      ghost var result := Merge(Table(), 0, lo, hi, len);
      var i := 0;
      while i < count
        invariant Valid() && 0 <= i <= count && Merge(Table(), i, lo, hi, len) == result
        decreases count - i
      {
        var r := reserved[i];
        var e := Sat(r.addr + r.size);
        ghost var tab := Table();
        assert tab[i] == r && End(r) == e;
        if lo < e && hi > r.addr {
          MergeOver(tab, i, lo, hi, len);
          if r.addr < lo { lo := r.addr; }
          if e > hi { hi := e; }
          len := hi - lo;
          Remove(i);
        } else {
          i := i + 1;
        }
      }
    }
  }
}
