/** Reading an ELF file: which files are accepted and what is then known about their segments. */
module ElfParse {
  import opened Common
  import opened MmuOps

  type Byte = n: nat | n < 256

  const PAGE_SIZE := 4096

  datatype Error =
    | Truncated | BadMagic | Not64 | NotExec | NotRiscv | BadSegment | Overlap | AddressTooHigh | NoMemory | MapFailed
      | BadProcess

  datatype Result<T> = Ok(value: T) | Err(error: Error)

  datatype Segment = Segment(vaddr: nat, offset: nat, filesz: nat, memsz: nat, flags: nat)
  datatype ElfInfo = ElfInfo(entry: nat, segments: seq<Segment>)

  /** The little-endian number in `n` bytes at `i`. */
  function Le(bytes: seq<Byte>, i: nat, n: nat): (r: nat)
    requires i + n <= |bytes|
    decreases n, i
  {
    if n == 0 then 0 else bytes[i] + 256 * Le(bytes, i + 1, n - 1)
  }

  function AlignDown(v: nat): (r: nat) { v - v % 4096 }
  function AlignUp(v: nat): (r: nat) { AlignDown(v + PAGE_SIZE - 1) }

  /** First page a segment occupies, and the page after its last. */
  function PageStart(s: Segment): (r: nat) { AlignDown(s.vaddr) }
  function PageEnd(s: Segment): (r: nat) { AlignUp(s.vaddr + s.memsz) }

  /** What every accepted segment satisfies by itself. */
  predicate SegmentOk(s: Segment, len: nat) {
    && s.vaddr < USER_VA_LIMIT && s.vaddr + s.memsz <= USER_VA_LIMIT
    && s.filesz <= s.memsz && s.offset + s.filesz <= len && s.vaddr % PAGE_SIZE == s.offset % PAGE_SIZE
  }

  // ----- Headers -----

  function HeaderError(bytes: seq<Byte>): (e: Option<Error>) {
    if |bytes| < 64 then Some(Truncated)
    else if bytes[0..4] != [0x7F, 0x45, 0x4C, 0x46] then Some(BadMagic)
    else if bytes[4] != 2 then Some(Not64)
    else if Le(bytes, 16, 2) != 2 then Some(NotExec)
    else if Le(bytes, 18, 2) != 243 then Some(NotRiscv)
    else
      var phoff, phnum := Le(bytes, 32, 8), Le(bytes, 56, 2);
      if phoff + phnum * 56 > |bytes| then Some(Truncated) else None
  }

  /** One program header at `off`: nothing for other types than `PT_LOAD`, else the segment or why it is refused. */
  function ReadHeader(bytes: seq<Byte>, off: nat): (r: Result<Option<Segment>>)
    requires off + 56 <= |bytes|
    ensures r.Ok? && r.value.Some? ==> SegmentOk(r.value.value, |bytes|)
  {
    if Le(bytes, off, 4) != 1 then Ok(None)
    else
      var s := Segment(Le(bytes, off + 16, 8), Le(bytes, off + 8, 8), Le(bytes, off + 32, 8), Le(bytes, off + 40, 8),
        Le(bytes, off + 4, 4));
      if s.vaddr >= USER_VA_LIMIT then Err(AddressTooHigh)
      else if s.vaddr + s.memsz > USER_VA_LIMIT then Err(AddressTooHigh)
      else if s.memsz < s.filesz then Err(BadSegment)
      else if s.offset + s.filesz > |bytes| then Err(Truncated)
      else if s.vaddr % PAGE_SIZE != s.offset % PAGE_SIZE then Err(BadSegment)
      else Ok(Some(s))
  }

  /** The segments of headers `i` to `n`, in file order. */
  function ReadAll(bytes: seq<Byte>, phoff: nat, i: nat, n: nat): (r: Result<seq<Segment>>)
    requires i <= n && phoff + n * 56 <= |bytes|
    ensures r.Ok? ==> forall k :: 0 <= k < |r.value| ==> SegmentOk(r.value[k], |bytes|)
    decreases n - i
  {
    if i == n then Ok([])
    else
      var h := ReadHeader(bytes, phoff + i * 56);
      if h.Err? then Err(h.error)
      else
        var rest := ReadAll(bytes, phoff, i + 1, n);
        if rest.Err? then rest
        else Ok(if h.value.Some? then [h.value.value] + rest.value else rest.value)
  }

  // ----- Order -----

  /** `sort_by_key` on the address: stable. */
  function Insert(s: Segment, l: seq<Segment>): (r: seq<Segment>)
    ensures |r| == |l| + 1
  {
    if l == [] || s.vaddr <= l[0].vaddr then [s] + l else [l[0]] + Insert(s, l[1..])
  }

  function Sort(l: seq<Segment>): (r: seq<Segment>)
    ensures |r| == |l|
  {
    if l == [] then [] else Insert(l[0], Sort(l[1..]))
  }

  ghost predicate Sorted(l: seq<Segment>) {
    forall i, j :: 0 <= i < j < |l| ==> l[i].vaddr <= l[j].vaddr
  }

  lemma {:induction false} InsertMembers(s: Segment, l: seq<Segment>)
    ensures multiset(Insert(s, l)) == multiset(l) + multiset{s}
    decreases |l|
  {
    if l != [] && s.vaddr > l[0].vaddr {
      InsertMembers(s, l[1..]);
      assert l == [l[0]] + l[1..];
    }
  }

  lemma {:induction false} InsertSorted(s: Segment, l: seq<Segment>)
    requires Sorted(l)
    ensures Sorted(Insert(s, l))
    decreases |l|
  {
    if l != [] && s.vaddr > l[0].vaddr {
      InsertSorted(s, l[1..]);
      InsertMembers(s, l[1..]);
      var r := Insert(s, l[1..]);
      forall k | 0 <= k < |r| ensures l[0].vaddr <= r[k].vaddr {
        assert r[k] in multiset(r);
        if r[k] != s { assert r[k] in l[1..]; }
      }
    }
  }

  lemma {:induction false} SortSorted(l: seq<Segment>)
    ensures Sorted(Sort(l)) && multiset(Sort(l)) == multiset(l)
    decreases |l|
  {
    if l != [] {
      SortSorted(l[1..]);
      InsertSorted(l[0], Sort(l[1..]));
      InsertMembers(l[0], Sort(l[1..]));
      assert l == [l[0]] + l[1..];
    }
  }

  /** The check that `parse` makes: only neighbours are compared. */
  predicate NeighboursApart(l: seq<Segment>) {
    forall i :: 0 <= i < |l| - 1 ==> NextApart(l, i)
  }

  predicate NextApart(l: seq<Segment>, i: int)
    requires 0 <= i < |l| - 1
  {
    PageEnd(l[i]) <= PageStart(l[i + 1])
  }

  ghost predicate AllApart(l: seq<Segment>) {
    forall i, j :: 0 <= i < j < |l| ==> PageEnd(l[i]) <= PageStart(l[j])
  }

  lemma StartBeforeEnd(s: Segment)
    ensures PageStart(s) <= PageEnd(s)
  {
  }

  lemma {:induction false} ApartUpTo(l: seq<Segment>, i: nat, j: nat)
    requires NeighboursApart(l) && i < j < |l|
    ensures PageEnd(l[i]) <= PageStart(l[j])
    decreases j
  {
    assert NextApart(l, j - 1);
    if i < j - 1 {
      ApartUpTo(l, i, j - 1);
      StartBeforeEnd(l[j - 1]);
    }
  }

  /** Comparing neighbours is enough: it accepts exactly the lists in which all page ranges are apart. */
  lemma NeighboursSuffice(l: seq<Segment>)
    ensures NeighboursApart(l) <==> AllApart(l)
  {
    if NeighboursApart(l) {
      forall i, j | 0 <= i < j < |l| ensures PageEnd(l[i]) <= PageStart(l[j]) {
        ApartUpTo(l, i, j);
      }
    }
    if AllApart(l) {
      forall i | 0 <= i < |l| - 1 ensures NextApart(l, i) {
        assert PageEnd(l[i]) <= PageStart(l[i + 1]);
      }
    }
  }

  // ----- The whole parser -----

  /** `parse` */
  function Parse(bytes: seq<Byte>): (r: Result<ElfInfo>) {
    var h := HeaderError(bytes);
    if h.Some? then Err(h.value)
    else
      var read := ReadAll(bytes, Le(bytes, 32, 8), 0, Le(bytes, 56, 2));
      if read.Err? then Err(read.error)
      else
        var segments := Sort(read.value);
        if NeighboursApart(segments) then Ok(ElfInfo(Le(bytes, 24, 8), segments)) else Err(Overlap)
  }

  /** No address lies in the pages of two segments, whatever their order in the file. */
  ghost predicate PagesDisjoint(l: seq<Segment>) {
    forall i, j, a: nat :: 0 <= i < |l| && 0 <= j < |l| && i != j ==> !(InPages(l[i], a) && InPages(l[j], a))
  }

  predicate InPages(s: Segment, a: nat) {
    PageStart(s) <= a < PageEnd(s)
  }

  /**
    An accepted file has well-formed segments, in order of address, whose pages are pairwise disjoint and
    below 2^38.
  */
  lemma ParseGood(bytes: seq<Byte>)
    requires Parse(bytes).Ok?
    ensures var l := Parse(bytes).value.segments;
            && Sorted(l) && AllApart(l) && PagesDisjoint(l)
            && forall i :: 0 <= i < |l| ==> SegmentOk(l[i], |bytes|) && PageEnd(l[i]) <= USER_VA_LIMIT
  {
    var read := ReadAll(bytes, Le(bytes, 32, 8), 0, Le(bytes, 56, 2)).value;
    var l := Parse(bytes).value.segments;
    SortSorted(read);
    NeighboursSuffice(l);
    forall i | 0 <= i < |l| ensures SegmentOk(l[i], |bytes|) && PageEnd(l[i]) <= USER_VA_LIMIT {
      assert l[i] in multiset(l);
      assert l[i] in read;
      EndInRange(l[i], |bytes|);
    }
  }

  lemma EndInRange(s: Segment, len: nat)
    requires SegmentOk(s, len)
    ensures PageEnd(s) <= USER_VA_LIMIT
  {
    assert USER_VA_LIMIT % PAGE_SIZE == 0;
  }

  // ----- Which files are refused for overlap -----

  /** No page: the segment is empty and its address starts a page. */
  predicate NoPages(s: Segment) {
    PageStart(s) == PageEnd(s)
  }

  predicate SharePage(s: Segment, t: Segment) {
    !NoPages(s) && !NoPages(t) && PageStart(s) < PageEnd(t) && PageStart(t) < PageEnd(s)
  }

  /**
    Segments `i` and `j` of the file make it refused: they share a page, or `j` has no page and lies inside `i`,
    or at the start of `i` and is listed after it.
  */
  predicate Clash(l: seq<Segment>, i: nat, j: nat)
    requires i < |l| && j < |l|
  {
    || SharePage(l[i], l[j])
    || (NoPages(l[j]) && l[i].vaddr < l[j].vaddr < PageEnd(l[i]))
    || (NoPages(l[j]) && !NoPages(l[i]) && l[i].vaddr == l[j].vaddr && i < j)
  }

  /** What the check asks of `s` and a segment `t` that the file lists after it. */
  predicate PairApart(s: Segment, t: Segment) {
    if s.vaddr <= t.vaddr then PageEnd(s) <= PageStart(t) else PageEnd(t) <= PageStart(s)
  }

  lemma {:induction false} InsertApart(s: Segment, l: seq<Segment>)
    requires Sorted(l)
    ensures AllApart(Insert(s, l)) <==> AllApart(l) && ApartFromAll(s, l)
    decreases |l|
  {
    if l != [] && s.vaddr > l[0].vaddr {
      var t, r := l[1..], Insert(s, l[1..]);
      InsertApart(s, t);
      ConsApart(l[0], r);
      ConsApart(l[0], t);
      InsertAfter(l[0], s, t);
      assert l == [l[0]] + t;
      assert ApartFromAll(s, l) <==> PairApart(s, l[0]) && ApartFromAll(s, t) by {
        assert forall k :: 0 < k < |l| ==> l[k] == t[k - 1];
      }
    } else {
      ConsApart(s, l);
    }
  }

  lemma ConsApart(s: Segment, l: seq<Segment>)
    ensures AllApart([s] + l) <==> AllApart(l) && forall k :: 0 <= k < |l| ==> PageEnd(s) <= PageStart(l[k])
  {
    var c := [s] + l;
    if AllApart(c) {
      forall i, j | 0 <= i < j < |l| ensures PageEnd(l[i]) <= PageStart(l[j]) {
        assert l[i] == c[i + 1] && l[j] == c[j + 1];
      }
      forall k | 0 <= k < |l| ensures PageEnd(s) <= PageStart(l[k]) { assert c[0] == s && l[k] == c[k + 1]; }
    }
  }

  /** All of `Insert(s, t)` is behind `a` exactly when `s` and all of `t` are. */
  lemma InsertAfter(a: Segment, s: Segment, t: seq<Segment>)
    ensures (forall k :: 0 <= k < |Insert(s, t)| ==> PageEnd(a) <= PageStart(Insert(s, t)[k])) <==>
            PageEnd(a) <= PageStart(s) && forall k :: 0 <= k < |t| ==> PageEnd(a) <= PageStart(t[k])
  {
    var r := Insert(s, t);
    InsertMembers(s, t);
    forall k | 0 <= k < |t| ensures t[k] in r { assert t[k] in multiset(t); assert t[k] in multiset(r); }
    assert s in multiset(r);
    forall k | 0 <= k < |r| ensures r[k] == s || r[k] in t { assert r[k] in multiset(r); }
  }

  ghost predicate AllPairs(l: seq<Segment>) {
    forall i, j :: 0 <= i < j < |l| ==> PairApart(l[i], l[j])
  }

  ghost predicate ApartFromAll(s: Segment, l: seq<Segment>) {
    forall k :: 0 <= k < |l| ==> PairApart(s, l[k])
  }

  lemma SameMembers(s: Segment, l: seq<Segment>, r: seq<Segment>)
    requires multiset(l) == multiset(r)
    ensures ApartFromAll(s, l) <==> ApartFromAll(s, r)
  {
    forall k | 0 <= k < |l| ensures l[k] in r { assert l[k] in multiset(r); }
    forall k | 0 <= k < |r| ensures r[k] in l { assert r[k] in multiset(l); }
  }

  /** The check on the sorted list, said of the list as the file has it. */
  lemma {:induction false} SortApart(l: seq<Segment>)
    ensures AllApart(Sort(l)) <==> AllPairs(l)
    decreases |l|
  {
    if l != [] {
      SortApart(l[1..]);
      SortSorted(l[1..]);
      InsertApart(l[0], Sort(l[1..]));
      SameMembers(l[0], l[1..], Sort(l[1..]));
      PairsCons(l);
    }
  }

  lemma PairsCons(l: seq<Segment>)
    requires l != []
    ensures AllPairs(l) <==> AllPairs(l[1..]) && ApartFromAll(l[0], l[1..])
  {
    var t := l[1..];
    assert forall k :: 0 < k < |l| ==> l[k] == t[k - 1];
    if AllPairs(l) {
      forall i, j | 0 <= i < j < |t| ensures PairApart(t[i], t[j]) { assert PairApart(l[i + 1], l[j + 1]); }
      forall k | 0 <= k < |t| ensures PairApart(l[0], t[k]) { assert PairApart(l[0], l[k + 1]); }
    }
  }

  lemma PairClash(l: seq<Segment>, i: nat, j: nat)
    requires i < j < |l|
    ensures PairApart(l[i], l[j]) <==> !Clash(l, i, j) && !Clash(l, j, i)
  {
    StartBeforeEnd(l[i]);
    StartBeforeEnd(l[j]);
  }

  /** The segments a file lists, if its headers are in order. */
  function Listed(bytes: seq<Byte>): (l: Option<seq<Segment>>) {
    if HeaderError(bytes).Some? then None
    else
      var read := ReadAll(bytes, Le(bytes, 32, 8), 0, Le(bytes, 56, 2));
      if read.Ok? then Some(read.value) else None
  }

  ghost predicate AnyClash(l: seq<Segment>) {
    exists i: nat, j: nat :: i < |l| && j < |l| && i != j && Clash(l, i, j)
  }

  ghost predicate AnyShare(l: seq<Segment>) {
    exists i: nat, j: nat :: i < |l| && j < |l| && i != j && SharePage(l[i], l[j])
  }

  lemma ClashIff(l: seq<Segment>)
    ensures NeighboursApart(Sort(l)) <==> !AnyClash(l)
  {
    NeighboursSuffice(Sort(l));
    SortApart(l);
    if AnyClash(l) {
      var i: nat, j: nat :| i < |l| && j < |l| && i != j && Clash(l, i, j);
      if i < j { PairClash(l, i, j); } else { PairClash(l, j, i); }
    } else {
      forall i, j | 0 <= i < j < |l| ensures PairApart(l[i], l[j]) { PairClash(l, i, j); }
    }
  }

  /** A file whose headers are in order is refused exactly when two of its segments clash. */
  lemma RefusedIff(bytes: seq<Byte>)
    requires Listed(bytes).Some?
    ensures Parse(bytes) == Err(Overlap) <==> AnyClash(Listed(bytes).value)
  {
    ClashIff(Listed(bytes).value);
  }

  /** Without empty segments it is refused exactly when two segments share a page. */
  lemma OverlapIff(bytes: seq<Byte>)
    requires Listed(bytes).Some? && forall k :: 0 <= k < |Listed(bytes).value| ==> Listed(bytes).value[k].memsz > 0
    ensures Parse(bytes) == Err(Overlap) <==> !PagesDisjoint(Listed(bytes).value)
  {
    var l := Listed(bytes).value;
    RefusedIff(bytes);
    forall k | 0 <= k < |l| ensures !NoPages(l[k]) { HasPages(l[k]); }
    ClashIsShare(l);
    DisjointIff(l);
  }

  lemma ClashIsShare(l: seq<Segment>)
    requires forall k :: 0 <= k < |l| ==> !NoPages(l[k])
    ensures AnyClash(l) <==> AnyShare(l)
  {
    if AnyClash(l) {
      var i: nat, j: nat :| i < |l| && j < |l| && i != j && Clash(l, i, j);
      assert SharePage(l[i], l[j]);
    }
    if AnyShare(l) {
      var i: nat, j: nat :| i < |l| && j < |l| && i != j && SharePage(l[i], l[j]);
      assert Clash(l, i, j);
    }
  }

  lemma HasPages(s: Segment)
    requires s.memsz > 0
    ensures PageStart(s) < PageEnd(s)
  {
  }

  lemma DisjointIff(l: seq<Segment>)
    ensures PagesDisjoint(l) <==> !AnyShare(l)
  {
    if AnyShare(l) {
      var i: nat, j: nat :| i < |l| && j < |l| && i != j && SharePage(l[i], l[j]);
      var a := if PageStart(l[i]) < PageStart(l[j]) then PageStart(l[j]) else PageStart(l[i]);
      assert InPages(l[i], a) && InPages(l[j], a);
    }
    if !PagesDisjoint(l) {
      var i, j, a: nat :| 0 <= i < |l| && 0 <= j < |l| && i != j && InPages(l[i], a) && InPages(l[j], a);
      assert SharePage(l[i], l[j]);
    }
  }

  /** A file may be refused although no page is shared: a segment without pages inside another one. */
  lemma EmptyInside(l: seq<Segment>)
    requires |l| == 2 && l[0] == Segment(4096, 4096, 0, 8192, 4) && l[1] == Segment(8192, 0, 0, 0, 4)
    ensures PagesDisjoint(l) && !NeighboursApart(Sort(l))
  {
    assert NoPages(l[1]) && Clash(l, 0, 1);
    ClashIff(l);
    DisjointIff(l);
  }

  /** At the start of another segment an empty one is refused only when it is listed after it. */
  lemma EmptyFirst(l: seq<Segment>)
    requires |l| == 2 && l[0] == Segment(4096, 0, 0, 0, 4) && l[1] == Segment(4096, 0, 0, 4096, 4)
    ensures NeighboursApart(Sort(l))
  {
    assert NoPages(l[0]) && !NoPages(l[1]);
    assert !Clash(l, 0, 1) && !Clash(l, 1, 0);
    ClashIff(l);
  }

  lemma EmptySecond(l: seq<Segment>)
    requires |l| == 2 && l[0] == Segment(4096, 0, 0, 4096, 4) && l[1] == Segment(4096, 0, 0, 0, 4)
    ensures !NeighboursApart(Sort(l))
  {
    assert NoPages(l[1]) && Clash(l, 0, 1);
    ClashIff(l);
  }

  /** `parse` as it runs: one pass over the headers, a sort, one pass over the neighbours. */
  method ParseFile(bytes: seq<Byte>) returns (r: Result<ElfInfo>)
    ensures r == Parse(bytes)
    ensures r.Ok? ==> PagesDisjoint(r.value.segments)
  {
    var h := HeaderError(bytes);
    if h.Some? {
      return Err(h.value);
    }
    var read := Collect(bytes, Le(bytes, 32, 8), Le(bytes, 56, 2));
    if read.Err? {
      return Err(read.error);
    }
    var segments := Sort(read.value);
    var apart := CheckNeighbours(segments);
    if !apart {
      return Err(Overlap);
    }
    r := Ok(ElfInfo(Le(bytes, 24, 8), segments));
    ParseGood(bytes);
  }

  method Collect(bytes: seq<Byte>, phoff: nat, phnum: nat) returns (r: Result<seq<Segment>>)
    requires phoff + phnum * 56 <= |bytes|
    ensures r == ReadAll(bytes, phoff, 0, phnum)
  {
    ghost var all := ReadAll(bytes, phoff, 0, phnum);
    var segments: seq<Segment> := [];
    var i := 0;
    assert all.Ok? ==> [] + all.value == all.value;
    while i < phnum
      invariant 0 <= i <= phnum
      invariant all == Prefixed(segments, ReadAll(bytes, phoff, i, phnum))
    {
      var s := ReadHeader(bytes, phoff + i * 56);
      if s.Err? {
        return Err(s.error);
      }
      if s.value.Some? {
        PrefixStep(segments, s.value.value, ReadAll(bytes, phoff, i + 1, phnum));
        segments := segments + [s.value.value];
      }
      i := i + 1;
    }
    assert segments + [] == segments;
    return Ok(segments);
  }

  ghost function Prefixed(a: seq<Segment>, r: Result<seq<Segment>>): (p: Result<seq<Segment>>) {
    if r.Err? then r else Ok(a + r.value)
  }

  lemma PrefixStep(a: seq<Segment>, s: Segment, r: Result<seq<Segment>>)
    ensures r.Ok? ==> Prefixed(a, Ok([s] + r.value)) == Prefixed(a + [s], r)
  {
    if r.Ok? { assert a + ([s] + r.value) == a + [s] + r.value; }
  }

  method CheckNeighbours(l: seq<Segment>) returns (apart: bool)
    ensures apart == NeighboursApart(l)
  {
    var i := 0;
    while i + 1 < |l|
      invariant 0 <= i && (i < |l| || |l| == 0) && forall k :: 0 <= k < i ==> k < |l| - 1 && NextApart(l, k)
    {
      if PageEnd(l[i]) > PageStart(l[i + 1]) {
        assert !NextApart(l, i);
        return false;
      }
      i := i + 1;
    }
    return true;
  }
}
