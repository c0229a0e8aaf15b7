/**
  The initial user stack: strings at the top, below them the argument vector, below that the argument
  count. The eight stack pages are separate physical pages, so every write goes through the page it hits.
*/
module ElfStack {
  import opened Common
  import opened ElfParse
  import opened ElfLoad

  const MAX_ARGS := 16
  const STACK_BYTES := 32768

  /** The eight pages. */
  type Stack = seq<seq<Byte>>

  predicate Whole(m: Stack) {
    |m| == USER_STACK_PAGES && forall i :: 0 <= i < USER_STACK_PAGES ==> |m[i]| == PAGE_SIZE
  }

  predicate OnStack(x: nat, n: nat) {
    STACK_BOTTOM <= x && x + n <= USER_STACK_TOP
  }

  /** Page and offset of a stack address. */
  function PageOf(x: nat): (r: nat)
    requires OnStack(x, 1)
    ensures r < USER_STACK_PAGES
  {
    (x - STACK_BOTTOM) / 4096
  }

  function OffsetOf(x: nat): (r: nat)
    ensures r < PAGE_SIZE
  {
    x % 4096
  }

  lemma PlaceUnique(x: nat, y: nat)
    requires OnStack(x, 1) && OnStack(y, 1) && PageOf(x) == PageOf(y) && OffsetOf(x) == OffsetOf(y)
    ensures x == y
  {
    assert STACK_BOTTOM % 4096 == 0;
  }

  function ByteAt(m: Stack, x: nat): (b: Byte)
    requires Whole(m) && OnStack(x, 1)
  {
    m[PageOf(x)][OffsetOf(x)]
  }

  function Poke(m: Stack, x: nat, b: Byte): (r: Stack)
    requires Whole(m) && OnStack(x, 1)
    ensures Whole(r)
  {
    var page: seq<Byte> := m[PageOf(x)][OffsetOf(x) := b];
    m[PageOf(x) := page]
  }

  lemma PokeAt(m: Stack, x: nat, b: Byte, y: nat)
    requires Whole(m) && OnStack(x, 1) && OnStack(y, 1)
    ensures ByteAt(Poke(m, x, b), y) == if y == x then b else ByteAt(m, y)
  {
    if PageOf(x) == PageOf(y) && OffsetOf(x) == OffsetOf(y) { PlaceUnique(x, y); }
  }

  // ----- Bytes -----

  /** Bytes one after the other. */
  function PokeAll(m: Stack, at: nat, data: seq<Byte>): (r: Stack)
    requires Whole(m) && OnStack(at, |data|)
    ensures Whole(r)
    decreases |data|
  {
    if data == [] then m else PokeAll(Poke(m, at, data[0]), at + 1, data[1..])
  }

  lemma {:induction false} PokeAllAt(m: Stack, at: nat, data: seq<Byte>, y: nat)
    requires Whole(m) && OnStack(at, |data|) && OnStack(y, 1)
    ensures ByteAt(PokeAll(m, at, data), y) == if at <= y < at + |data| then data[y - at] else ByteAt(m, y)
    decreases |data|
  {
    if data != [] {
      PokeAt(m, at, data[0], y);
      PokeAllAt(Poke(m, at, data[0]), at + 1, data[1..], y);
    }
  }

  lemma {:induction false} PokeAllJoin(m: Stack, at: nat, a: seq<Byte>, b: seq<Byte>)
    requires Whole(m) && OnStack(at, |a| + |b|)
    ensures PokeAll(m, at, a + b) == PokeAll(PokeAll(m, at, a), at + |a|, b)
    decreases |a|
  {
    if a == [] {
      assert a + b == b;
    } else {
      assert (a + b)[1..] == a[1..] + b;
      PokeAllJoin(Poke(m, at, a[0]), at + 1, a[1..], b);
    }
  }

  // ----- Words -----

  /** The `n` little-endian bytes of `w`. */
  function Enc(w: nat, n: nat): (r: seq<Byte>)
    ensures |r| == n
    decreases n, w
  {
    if n == 0 then [] else [w % 256] + Enc(w / 256, n - 1)
  }

  function Dec(d: seq<Byte>): (w: nat)
    decreases |d|
  {
    if d == [] then 0 else d[0] + 256 * Dec(d[1..])
  }

  /** One more than the largest number in `n` bytes. */
  function Limit(n: nat): (r: nat) {
    if n == 0 then 1 else 256 * Limit(n - 1)
  }

  const WORD_LIMIT: nat := 0x1_0000_0000_0000_0000

  lemma WordLimit()
    ensures Limit(8) == WORD_LIMIT
  {
  }

  lemma {:induction false} DecEnc(w: nat, n: nat)
    requires w < Limit(n)
    ensures Dec(Enc(w, n)) == w
    decreases n
  {
    if n > 0 {
      DecEnc(w / 256, n - 1);
      assert Enc(w, n)[1..] == Enc(w / 256, n - 1);
    }
  }

  lemma DecEncWord(w: nat)
    requires w < WORD_LIMIT
    ensures Dec(Enc(w, 8)) == w
  {
    WordLimit();
    DecEnc(w, 8);
  }

  /** An eight-byte store inside one page. */
  function PokeWord(m: Stack, x: nat, w: nat): (r: Stack)
    requires Whole(m) && OnStack(x, 8) && OffsetOf(x) + 8 <= PAGE_SIZE
    ensures Whole(r)
  {
    var o := OffsetOf(x);
    var page: seq<Byte> := m[PageOf(x)][..o] + Enc(w, 8) + m[PageOf(x)][o + 8..];
    m[PageOf(x) := page]
  }

  /** An aligned word does not cross a page. */
  lemma AlignedInPage(x: nat)
    requires x % 8 == 0
    ensures OffsetOf(x) + 8 <= PAGE_SIZE
  {
    assert 4096 % 8 == 0;
  }

  lemma NearPlace(x: nat, k: nat)
    requires OnStack(x, 8) && OffsetOf(x) + 8 <= PAGE_SIZE && k < 8
    ensures PageOf(x + k) == PageOf(x) && OffsetOf(x + k) == OffsetOf(x) + k
  {
    assert STACK_BOTTOM % 4096 == 0;
  }

  lemma PokeWordAt(m: Stack, x: nat, w: nat, y: nat)
    requires Whole(m) && OnStack(x, 8) && OffsetOf(x) + 8 <= PAGE_SIZE && OnStack(y, 1)
    ensures ByteAt(PokeWord(m, x, w), y) == if x <= y < x + 8 then Enc(w, 8)[y - x] else ByteAt(m, y)
  {
    if x <= y < x + 8 {
      NearPlace(x, y - x);
    }
  }

  function ReadBytes(m: Stack, x: nat, n: nat): (r: seq<Byte>)
    requires Whole(m) && OnStack(x, n)
    ensures |r| == n && forall k :: 0 <= k < n ==> r[k] == ByteAt(m, x + k)
    decreases n, x, m
  {
    if n == 0 then [] else [ByteAt(m, x)] + ReadBytes(m, x + 1, n - 1)
  }

  /** A word read back through the page mapping. */
  function ReadWord(m: Stack, x: nat): (w: nat)
    requires Whole(m) && OnStack(x, 8)
  {
    Dec(ReadBytes(m, x, 8))
  }

  /** The eight bytes at `x` are those of `w`. */
  ghost predicate WordAt(m: Stack, x: nat, w: nat)
    requires Whole(m)
  {
    OnStack(x, 8) && forall y: nat :: x <= y < x + 8 ==> ByteAt(m, y) == Enc(w, 8)[y - x]
  }

  lemma WordReads(m: Stack, x: nat, w: nat)
    requires Whole(m) && WordAt(m, x, w) && w < WORD_LIMIT
    ensures ReadWord(m, x) == w
  {
    assert ReadBytes(m, x, 8) == Enc(w, 8);
    DecEncWord(w);
  }

  lemma PokedWord(m: Stack, x: nat, w: nat)
    requires Whole(m) && OnStack(x, 8) && OffsetOf(x) + 8 <= PAGE_SIZE
    ensures WordAt(PokeWord(m, x, w), x, w)
  {
    forall y: nat | x <= y < x + 8 ensures ByteAt(PokeWord(m, x, w), y) == Enc(w, 8)[y - x] {
      PokeWordAt(m, x, w, y);
    }
  }

  /** Words one after the other, each inside its page. */
  function PokeWords(m: Stack, at: nat, ws: seq<nat>): (r: Stack)
    requires Whole(m) && at % 8 == 0 && OnStack(at, 8 * |ws|)
    ensures Whole(r)
    decreases |ws|
  {
    if ws == [] then m
    else
      AlignedInPage(at);
      PokeWords(PokeWord(m, at, ws[0]), at + 8, ws[1..])
  }

  lemma {:induction false} PokeWordsOutside(m: Stack, at: nat, ws: seq<nat>, y: nat)
    requires Whole(m) && at % 8 == 0 && OnStack(at, 8 * |ws|) && OnStack(y, 1) && (y < at || at + 8 * |ws| <= y)
    ensures ByteAt(PokeWords(m, at, ws), y) == ByteAt(m, y)
    decreases |ws|
  {
    if ws != [] {
      AlignedInPage(at);
      PokeWordAt(m, at, ws[0], y);
      PokeWordsOutside(PokeWord(m, at, ws[0]), at + 8, ws[1..], y);
    }
  }

  lemma PokeWordsKeep(m: Stack, at: nat, ws: seq<nat>, x: nat, w: nat)
    requires Whole(m) && at % 8 == 0 && OnStack(at, 8 * |ws|) && WordAt(m, x, w) && (x + 8 <= at || at + 8 * |ws| <= x)
    ensures WordAt(PokeWords(m, at, ws), x, w)
  {
    forall y: nat | x <= y < x + 8 ensures ByteAt(PokeWords(m, at, ws), y) == Enc(w, 8)[y - x] {
      PokeWordsOutside(m, at, ws, y);
    }
  }

  lemma {:induction false} PokeWordsRead(m: Stack, at: nat, ws: seq<nat>, i: nat, x: nat)
    requires Whole(m) && at % 8 == 0 && OnStack(at, 8 * |ws|) && i < |ws| && x == at + 8 * i
    ensures WordAt(PokeWords(m, at, ws), x, ws[i])
    decreases |ws|
  {
    AlignedInPage(at);
    var m' := PokeWord(m, at, ws[0]);
    assert PokeWords(m, at, ws) == PokeWords(m', at + 8, ws[1..]);
    if i == 0 {
      PokedWord(m, at, ws[0]);
      PokeWordsKeep(m', at + 8, ws[1..], at, ws[0]);
    } else {
      PokeWordsRead(m', at + 8, ws[1..], i - 1, x);
    }
  }

  // ----- The layout -----

  /** The strings with their terminators, one after the other. */
  function Blob(args: seq<seq<Byte>>): (r: seq<Byte>)
    decreases |args|
  {
    if args == [] then [] else args[0] + [0] + Blob(args[1..])
  }

  /** Where each string starts when the first is at `at`. */
  function Starts(at: nat, args: seq<seq<Byte>>): (r: seq<nat>)
    ensures |r| == |args|
    decreases |args|
  {
    if args == [] then [] else [at] + Starts(at + |args[0]| + 1, args[1..])
  }

  lemma {:induction false} StartsIn(at: nat, args: seq<seq<Byte>>, i: nat)
    requires i < |args|
    ensures at <= Starts(at, args)[i] && Starts(at, args)[i] + |args[i]| + 1 <= at + |Blob(args)|
    ensures Blob(args)[Starts(at, args)[i] - at..][..|args[i]| + 1] == args[i] + [0]
    decreases |args|
  {
    var rest := Blob(args[1..]);
    if i == 0 {
      assert Blob(args)[..|args[0]| + 1] == args[0] + [0];
    } else {
      var at' := at + |args[0]| + 1;
      StartsIn(at', args[1..], i - 1);
      var d := Starts(at', args[1..])[i - 1] - at';
      assert Blob(args)[|args[0]| + 1 + d..] == rest[d..];
    }
  }

  function Align16(v: nat): (r: nat)
    ensures r % 16 == 0 && v - 15 <= r <= v
  {
    v - v % 16
  }

  /** Start of the strings, of the argument vector, and the stack pointer. */
  datatype Layout = Layout(strings: nat, argv: nat, sp: nat)

  predicate FitsFirst(args: seq<seq<Byte>>) {
    |args| <= MAX_ARGS && |Blob(args)| <= STACK_BYTES - (|args| + 2) * 8 - 16
  }

  /** Where everything goes, or that the arguments are refused. */
  function Plan(args: seq<seq<Byte>>): (r: Option<Layout>) {
    if !FitsFirst(args) then None
    else
      var strings := Align16(USER_STACK_TOP - |Blob(args)|);
      var argv := Align16(strings - (|args| + 1) * 8);
      if argv < STACK_BOTTOM + 16 then None else Some(Layout(strings, argv, Align16(argv - 8)))
  }

  /** Three areas on the stack, one below the other: count, vector of `n` words, `len` bytes. */
  predicate Ordered(sp: nat, argv: nat, n: nat, strings: nat, len: nat) {
    STACK_BOTTOM <= sp && sp + 8 <= argv && argv + 8 * n <= strings && strings + len <= USER_STACK_TOP && sp % 8 == 0 &&
      argv % 8 == 0
  }

  lemma AlignedAreas(len: nat, n: nat, strings: nat, argv: nat)
    requires len <= STACK_BYTES && strings == Align16(USER_STACK_TOP - len)
    requires 8 * n <= strings && argv == Align16(strings - 8 * n) && argv >= STACK_BOTTOM + 16
    ensures Ordered(Align16(argv - 8), argv, n, strings, len)
  {
  }

  /** The three areas lie on the stack one below the other and do not overlap; `sp` is 16-byte aligned. */
  lemma PlanGood(args: seq<seq<Byte>>)
    requires Plan(args).Some?
    ensures var p := Plan(args).value;
            Ordered(p.sp, p.argv, |args| + 1, p.strings, |Blob(args)|) && p.sp % 16 == 0 && |args| <= MAX_ARGS
  {
    var p := Plan(args).value;
    AlignedAreas(|Blob(args)|, |args| + 1, p.strings, p.argv);
  }

  /** Strings, then the vector, then the count are written. */
  function WriteAreas(m: Stack, p: Layout, data: seq<Byte>, ws: seq<nat>, count: nat): (r: Stack)
    requires Whole(m) && Ordered(p.sp, p.argv, |ws|, p.strings, |data|)
    ensures Whole(r)
  {
    AlignedInPage(p.sp);
    PokeWord(PokeWords(PokeAll(m, p.strings, data), p.argv, ws), p.sp, count)
  }

  /** Bytes of the string area survive the later writes. */
  lemma StringsSurvive(m: Stack, p: Layout, data: seq<Byte>, ws: seq<nat>, count: nat, y: nat)
    requires Whole(m) && Ordered(p.sp, p.argv, |ws|, p.strings, |data|) && p.strings <= y < p.strings + |data|
    ensures ByteAt(WriteAreas(m, p, data, ws, count), y) == data[y - p.strings]
  {
    var m1 := PokeAll(m, p.strings, data);
    PokeAllAt(m, p.strings, data, y);
    PokeWordsOutside(m1, p.argv, ws, y);
    AlignedInPage(p.sp);
    PokeWordAt(PokeWords(m1, p.argv, ws), p.sp, count, y);
  }

  /** Words of the vector survive the write of the count. */
  lemma VectorSurvives(m: Stack, p: Layout, data: seq<Byte>, ws: seq<nat>, count: nat, i: nat, x: nat)
    requires Whole(m) && Ordered(p.sp, p.argv, |ws|, p.strings, |data|) && i < |ws| && x == p.argv + 8 * i
    ensures WordAt(WriteAreas(m, p, data, ws, count), x, ws[i])
  {
    var m1 := PokeAll(m, p.strings, data);
    var m2 := PokeWords(m1, p.argv, ws);
    PokeWordsRead(m1, p.argv, ws, i, x);
    AlignedInPage(p.sp);
    forall y: nat | x <= y < x + 8 ensures ByteAt(PokeWord(m2, p.sp, count), y) == Enc(ws[i], 8)[y - x] {
      PokeWordAt(m2, p.sp, count, y);
    }
  }

  lemma CountReads(m: Stack, p: Layout, data: seq<Byte>, ws: seq<nat>, count: nat)
    requires Whole(m) && Ordered(p.sp, p.argv, |ws|, p.strings, |data|)
    ensures WordAt(WriteAreas(m, p, data, ws, count), p.sp, count)
  {
    AlignedInPage(p.sp);
    PokedWord(PokeWords(PokeAll(m, p.strings, data), p.argv, ws), p.sp, count);
  }

  /** The words of the argument vector: a pointer to every string, and a null. */
  function Vector(p: Layout, args: seq<seq<Byte>>): (ws: seq<nat>)
    ensures |ws| == |args| + 1
  {
    Starts(p.strings, args) + [0]
  }

  /** The stack that `build_user_stack` leaves. */
  function Build(m: Stack, p: Layout, args: seq<seq<Byte>>): (r: Stack)
    requires Whole(m) && Ordered(p.sp, p.argv, |args| + 1, p.strings, |Blob(args)|)
    ensures Whole(r)
  {
    WriteAreas(m, p, Blob(args), Vector(p, args), |args|)
  }

  /** The start of the strings, for arguments that pass the first check. */
  function StringsAt(args: seq<seq<Byte>>): (r: nat)
    requires FitsFirst(args)
    ensures OnStack(r, |Blob(args)|)
  {
    Align16(USER_STACK_TOP - |Blob(args)|)
  }

  /** What is written to the stack: everything, or only the strings if the rest does not fit below them. */
  function ArgStack(m: Stack, args: seq<seq<Byte>>): (r: Stack)
    requires Whole(m) && FitsFirst(args)
    ensures Whole(r)
  {
    if Plan(args).Some? then
      PlanGood(args);
      Build(m, Plan(args).value, args)
    else PokeAll(m, StringsAt(args), Blob(args))
  }

  lemma SmallWords(args: seq<seq<Byte>>, at: nat)
    requires at + |Blob(args)| <= USER_STACK_TOP
    ensures forall k :: 0 <= k <= |args| ==> (Starts(at, args) + [0])[k] < WORD_LIMIT
  {
    forall k | 0 <= k <= |args| ensures (Starts(at, args) + [0])[k] < WORD_LIMIT {
      if k < |args| { StartsIn(at, args, k); }
    }
  }

  /** The bytes at `at` are those of `a` and a zero. */
  ghost predicate StringAt(m: Stack, at: nat, a: seq<Byte>)
    requires Whole(m)
  {
    OnStack(at, |a| + 1) && forall y: nat :: at <= y <= at + |a| ==> ByteAt(m, y) == (a + [0])[y - at]
  }

  lemma StringStays(m: Stack, p: Layout, args: seq<seq<Byte>>, i: nat)
    requires Whole(m) && Ordered(p.sp, p.argv, |args| + 1, p.strings, |Blob(args)|) && i < |args|
    ensures StringAt(Build(m, p, args), Starts(p.strings, args)[i], args[i])
  {
    var r, data, ws := Build(m, p, args), Blob(args), Vector(p, args);
    StartsIn(p.strings, args, i);
    var at, n := Starts(p.strings, args)[i], |args[i]| + 1;
    forall y: nat | at <= y <= at + |args[i]| ensures ByteAt(r, y) == (args[i] + [0])[y - at] {
      StringsSurvive(m, p, data, ws, |args|, y);
      assert data[at - p.strings..][..n][y - at] == data[y - p.strings];
    }
  }

  ghost predicate BytesThere(m: Stack, at: nat, data: seq<Byte>)
    requires Whole(m)
  {
    OnStack(at, |data|) && ReadBytes(m, at, |data|) == data
  }

  /** The pointer in the cell leads to the bytes of `a` and a zero. */
  ghost predicate ReadsArg(m: Stack, cell: nat, a: seq<Byte>) {
    && Whole(m) && OnStack(cell, 8)
    && var found := BytesThere(m, ReadWord(m, cell), a + [0]); found
  }

  lemma PointerReads(m: Stack, cell: nat, at: nat, a: seq<Byte>)
    requires Whole(m) && WordAt(m, cell, at) && at < WORD_LIMIT && StringAt(m, at, a)
    ensures ReadsArg(m, cell, a)
  {
    WordReads(m, cell, at);
    assert ReadBytes(m, at, |a + [0]|) == a + [0];
  }

  lemma ReadsOne(m: Stack, p: Layout, args: seq<seq<Byte>>, i: nat)
    requires Whole(m) && Ordered(p.sp, p.argv, |args| + 1, p.strings, |Blob(args)|) && i < |args|
    ensures ReadsArg(Build(m, p, args), p.argv + 8 * i, args[i])
  {
    SmallWords(args, p.strings);
    var cell, ws, r := p.argv + 8 * i, Vector(p, args), Build(m, p, args);
    VectorSurvives(m, p, Blob(args), ws, |args|, i, cell);
    StringStays(m, p, args, i);
    PointerReads(r, cell, ws[i], args[i]);
  }

  /** The word at `x` reads as `w`. */
  ghost predicate ReadsWord(m: Stack, x: nat, w: nat) {
    && Whole(m) && OnStack(x, 8)
    && var same := ReadWord(m, x) == w; same
  }

  lemma ReadsEnds(m: Stack, p: Layout, args: seq<seq<Byte>>)
    requires Whole(m) && Ordered(p.sp, p.argv, |args| + 1, p.strings, |Blob(args)|) && |args| < WORD_LIMIT
    ensures ReadsWord(Build(m, p, args), p.sp, |args|) && ReadsWord(Build(m, p, args), p.argv + 8 * |args|, 0)
  {
    var ws, r := Vector(p, args), Build(m, p, args);
    CountReads(m, p, Blob(args), ws, |args|);
    VectorSurvives(m, p, Blob(args), ws, |args|, |args|, p.argv + 8 * |args|);
    WordReads(r, p.sp, |args|);
    WordReads(r, p.argv + 8 * |args|, 0);
  }

  /** The argument count, a null-terminated vector of pointers, and behind them the arguments. */
  ghost predicate Recovers(m: Stack, p: Layout, args: seq<seq<Byte>>) {
    var count, null' := ReadsWord(m, p.sp, |args|), ReadsWord(m, p.argv + 8 * |args|, 0);
    count && null' && forall i :: 0 <= i < |args| ==> ReadsArg(m, p.argv + 8 * i, args[i])
  }

  /**
    A program that starts with this stack finds the number of its arguments at `sp`, which is 16-byte
    aligned, a vector of as many pointers and a null behind, and behind each pointer the argument's bytes
    and a terminating zero.
  */
  lemma ReadsBack(m: Stack, args: seq<seq<Byte>>)
    requires Whole(m) && Plan(args).Some?
    ensures var p := Plan(args).value;
            && Ordered(p.sp, p.argv, |args| + 1, p.strings, |Blob(args)|) && p.sp % 16 == 0
            && Recovers(Build(m, p, args), p, args)
  {
    PlanGood(args);
    AllRead(m, Plan(args).value, args);
  }

  lemma AllRead(m: Stack, p: Layout, args: seq<seq<Byte>>)
    requires Whole(m) && Ordered(p.sp, p.argv, |args| + 1, p.strings, |Blob(args)|) && |args| < WORD_LIMIT
    ensures Recovers(Build(m, p, args), p, args)
  {
    ReadsEnds(m, p, args);
    forall i | 0 <= i < |args| ensures ReadsArg(Build(m, p, args), p.argv + 8 * i, args[i]) {
      ReadsOne(m, p, args, i);
    }
  }

  // ----- The builder as it runs -----

  /** `build_user_stack`, once the number of arguments has been checked and the stack pages are mapped */
  method BuildUserStack(m0: Stack, args: seq<seq<Byte>>) returns (m: Stack, r: Option<Layout>)
    requires Whole(m0)
    requires FitsFirst(args)
    ensures m == ArgStack(m0, args) && r == Plan(args)
  {
    var starts;
    m, starts := WriteStrings(m0, StringsAt(args), args);
    if Plan(args).None? {
      return m, None;
    }
    var p := Plan(args).value;
    PlanGood(args);
    m := WriteRest(m, p, starts + [0], |args|, |Blob(args)|);
    return m, Some(p);
  }

  /** The vector and the count. */
  method WriteRest(m0: Stack, p: Layout, ws: seq<nat>, n: nat, ghost len: nat) returns (m: Stack)
    requires Whole(m0) && Ordered(p.sp, p.argv, |ws|, p.strings, len)
    ensures Whole(m) && OffsetOf(p.sp) + 8 <= PAGE_SIZE && m == PokeWord(PokeWords(m0, p.argv, ws), p.sp, n)
  {
    m := WriteVector(m0, p.argv, ws);
    AlignedInPage(p.sp);
    m := PokeWord(m, p.sp, n);
  }

  method WriteStrings(m0: Stack, at: nat, args: seq<seq<Byte>>) returns (m: Stack, starts: seq<nat>)
    requires Whole(m0) && OnStack(at, |Blob(args)|)
    ensures Whole(m) && m == PokeAll(m0, at, Blob(args)) && starts == Starts(at, args)
  {
    m, starts := m0, [];
    var sptr, i := at, 0;
    assert args[0..] == args;
    while i < |args|
      invariant 0 <= i <= |args| && Whole(m) && sptr + |Blob(args[i..])| == at + |Blob(args)| && at <= sptr
      invariant PokeAll(m, sptr, Blob(args[i..])) == PokeAll(m0, at, Blob(args))
      invariant starts + Starts(sptr, args[i..]) == Starts(at, args)
    {
      var rest := args[i..];
      assert rest[0] == args[i] && rest[1..] == args[i + 1..];
      starts := starts + [sptr];
      PokeAllJoin(m, sptr, args[i] + [0], Blob(args[i + 1..]));
      m := WriteString(m, sptr, args[i] + [0]);
      sptr := sptr + |args[i]| + 1;
      i := i + 1;
    }
  }

  method WriteString(m0: Stack, at: nat, data: seq<Byte>) returns (m: Stack)
    requires Whole(m0) && OnStack(at, |data|)
    ensures Whole(m) && m == PokeAll(m0, at, data)
  {
    m := m0;
    var j := 0;
    assert data[0..] == data;
    while j < |data|
      invariant 0 <= j <= |data| && Whole(m) && PokeAll(m, at + j, data[j..]) == PokeAll(m0, at, data)
    {
      assert data[j..][0] == data[j] && data[j..][1..] == data[j + 1..];
      m := Poke(m, at + j, data[j]);
      j := j + 1;
    }
  }

  method WriteVector(m0: Stack, at: nat, ws: seq<nat>) returns (m: Stack)
    requires Whole(m0) && at % 8 == 0 && OnStack(at, 8 * |ws|)
    ensures Whole(m) && m == PokeWords(m0, at, ws)
  {
    m := m0;
    var i, cell := 0, at;
    assert ws[0..] == ws;
    while i < |ws|
      invariant 0 <= i <= |ws| && cell == at + 8 * i && Whole(m) && PokeWords(m, cell, ws[i..]) == PokeWords(m0, at, ws)
    {
      assert ws[i..][0] == ws[i] && ws[i..][1..] == ws[i + 1..];
      AlignedInPage(cell);
      m := PokeWord(m, cell, ws[i]);
      cell := cell + 8;
      i := i + 1;
    }
  }
}
