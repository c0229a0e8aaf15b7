/**
  The ELF64 format, written down as an encoder: the file header and the program headers, field after field. Parsing
  undoes it, and which files are accepted, and with which error the others are refused, is said of the fields.
*/
module ElfFormat {
  import opened Common
  import opened MmuOps
  import opened ElfParse
  import opened ElfStack

  /** The fields of the file header, in their order. */
  datatype Header = Header(ident: seq<Byte>, kind: nat, machine: nat, version: nat, entry: nat, phoff: nat, shoff: nat,
    flags: nat, ehsize: nat, phentsize: nat, phnum: nat, shentsize: nat, shnum: nat, shstrndx: nat)

  /** The fields of a program header, in their order. */
  datatype Program = Program(kind: nat, flags: nat, offset: nat, vaddr: nat, paddr: nat, filesz: nat, memsz: nat,
    align: nat)

  const ET_EXEC := 2
  const EM_RISCV := 243
  const PT_LOAD := 1
  const CLASS_64 := 2

  const HEADER_SIZE := 64
  const PROGRAM_SIZE := 56

  // ----- The encoder -----

  predicate HeaderFits(h: Header) {
    && |h.ident| == 16 && h.kind < Limit(2) && h.machine < Limit(2) && h.version < Limit(4) && h.entry < Limit(8)
    && h.phoff < Limit(8) && h.shoff < Limit(8) && h.flags < Limit(4) && h.ehsize < Limit(2) && h.phentsize < Limit(2)
    && h.phnum < Limit(2) && h.shentsize < Limit(2) && h.shnum < Limit(2) && h.shstrndx < Limit(2)
  }

  predicate ProgramFits(p: Program) {
    && p.kind < Limit(4) && p.flags < Limit(4) && p.offset < Limit(8) && p.vaddr < Limit(8) && p.paddr < Limit(8)
    && p.filesz < Limit(8) && p.memsz < Limit(8) && p.align < Limit(8)
  }

  function EncodeHeader(h: Header): (r: seq<Byte>)
    requires |h.ident| == 16
    ensures |r| == HEADER_SIZE
  {
    h.ident + (Enc(h.kind, 2) + (Enc(h.machine, 2) + (Enc(h.version, 4) + (Enc(h.entry, 8) + (Enc(h.phoff, 8)
    + (Enc(h.shoff, 8) + (Enc(h.flags, 4) + (Enc(h.ehsize, 2) + (Enc(h.phentsize, 2) + (Enc(h.phnum, 2)
    + (Enc(h.shentsize, 2) + (Enc(h.shnum, 2) + Enc(h.shstrndx, 2)))))))))))))
  }

  function EncodeProgram(p: Program): (r: seq<Byte>)
    ensures |r| == PROGRAM_SIZE
  {
    Enc(p.kind, 4) + (Enc(p.flags, 4) + (Enc(p.offset, 8) + (Enc(p.vaddr, 8) + (Enc(p.paddr, 8)
    + (Enc(p.filesz, 8) + (Enc(p.memsz, 8) + Enc(p.align, 8)))))))
  }

  /** The bytes `d` stand at offset `i`. */
  predicate At(bytes: seq<Byte>, i: nat, d: seq<Byte>) {
    i + |d| <= |bytes| && bytes[i..i + |d|] == d
  }

  predicate HasHeader(bytes: seq<Byte>, h: Header) {
    HeaderFits(h) && At(bytes, 0, EncodeHeader(h))
  }

  /** The program headers are where the header says; nothing is said of a table that does not fit into the file. */
  ghost predicate HasTable(bytes: seq<Byte>, h: Header, ps: seq<Program>) {
    h.phoff + PROGRAM_SIZE * h.phnum <= |bytes| ==>
      && |ps| == h.phnum
      && forall i :: 0 <= i < |ps| ==> ProgramFits(ps[i]) && At(bytes, h.phoff + PROGRAM_SIZE * i, EncodeProgram(ps[i]))
  }

  // ----- Reading fields back -----

  lemma AtSplit(bytes: seq<Byte>, i: nat, a: seq<Byte>, b: seq<Byte>)
    ensures At(bytes, i, a + b) <==> At(bytes, i, a) && At(bytes, i + |a|, b)
  {
    if At(bytes, i, a + b) {
      assert bytes[i..i + |a|] == (a + b)[..|a|] && bytes[i + |a|..i + |a| + |b|] == (a + b)[|a|..];
    }
    if At(bytes, i, a) && At(bytes, i + |a|, b) {
      assert bytes[i..i + |a + b|] == bytes[i..i + |a|] + bytes[i + |a|..i + |a| + |b|];
    }
  }

  lemma {:induction false} LeField(bytes: seq<Byte>, i: nat, n: nat, v: nat)
    requires At(bytes, i, Enc(v, n)) && v < Limit(n)
    ensures Le(bytes, i, n) == v
    decreases n
  {
    if n > 0 {
      AtSplit(bytes, i, [v % 256], Enc(v / 256, n - 1));
      assert bytes[i] == bytes[i..i + 1][0];
      LeField(bytes, i + 1, n - 1, v / 256);
    }
  }

  /** The fields that `parse` looks at. */
  predicate ReadsHeader(bytes: seq<Byte>, h: Header) {
    && |bytes| >= HEADER_SIZE && |h.ident| == 16 && bytes[..16] == h.ident
    && Le(bytes, 16, 2) == h.kind && Le(bytes, 18, 2) == h.machine && Le(bytes, 24, 8) == h.entry
    && Le(bytes, 32, 8) == h.phoff && Le(bytes, 56, 2) == h.phnum
  }

  lemma HeaderReads(bytes: seq<Byte>, h: Header)
    requires HasHeader(bytes, h)
    ensures ReadsHeader(bytes, h)
  {
    var r13 := Enc(h.shstrndx, 2);
    var r12 := Enc(h.shnum, 2) + r13;
    var r11 := Enc(h.shentsize, 2) + r12;
    var r10 := Enc(h.phnum, 2) + r11;
    var r9 := Enc(h.phentsize, 2) + r10;
    var r8 := Enc(h.ehsize, 2) + r9;
    var r7 := Enc(h.flags, 4) + r8;
    var r6 := Enc(h.shoff, 8) + r7;
    var r5 := Enc(h.phoff, 8) + r6;
    var r4 := Enc(h.entry, 8) + r5;
    var r3 := Enc(h.version, 4) + r4;
    var r2 := Enc(h.machine, 2) + r3;
    var r1 := Enc(h.kind, 2) + r2;
    AtSplit(bytes, 0, h.ident, r1);
    AtSplit(bytes, 16, Enc(h.kind, 2), r2);
    AtSplit(bytes, 18, Enc(h.machine, 2), r3);
    AtSplit(bytes, 20, Enc(h.version, 4), r4);
    AtSplit(bytes, 24, Enc(h.entry, 8), r5);
    AtSplit(bytes, 32, Enc(h.phoff, 8), r6);
    AtSplit(bytes, 40, Enc(h.shoff, 8), r7);
    AtSplit(bytes, 48, Enc(h.flags, 4), r8);
    AtSplit(bytes, 52, Enc(h.ehsize, 2), r9);
    AtSplit(bytes, 54, Enc(h.phentsize, 2), r10);
    AtSplit(bytes, 56, Enc(h.phnum, 2), r11);
    LeField(bytes, 16, 2, h.kind);
    LeField(bytes, 18, 2, h.machine);
    LeField(bytes, 24, 8, h.entry);
    LeField(bytes, 32, 8, h.phoff);
    LeField(bytes, 56, 2, h.phnum);
  }

  predicate ReadsProgram(bytes: seq<Byte>, off: nat, p: Program) {
    && off + PROGRAM_SIZE <= |bytes| && Le(bytes, off, 4) == p.kind && Le(bytes, off + 4, 4) == p.flags
    && Le(bytes, off + 8, 8) == p.offset && Le(bytes, off + 16, 8) == p.vaddr && Le(bytes, off + 32, 8) == p.filesz
    && Le(bytes, off + 40, 8) == p.memsz
  }

  lemma ProgramReads(bytes: seq<Byte>, off: nat, p: Program)
    requires ProgramFits(p) && At(bytes, off, EncodeProgram(p))
    ensures ReadsProgram(bytes, off, p)
  {
    var r7 := Enc(p.align, 8);
    var r6 := Enc(p.memsz, 8) + r7;
    var r5 := Enc(p.filesz, 8) + r6;
    var r4 := Enc(p.paddr, 8) + r5;
    var r3 := Enc(p.vaddr, 8) + r4;
    var r2 := Enc(p.offset, 8) + r3;
    var r1 := Enc(p.flags, 4) + r2;
    AtSplit(bytes, off, Enc(p.kind, 4), r1);
    AtSplit(bytes, off + 4, Enc(p.flags, 4), r2);
    AtSplit(bytes, off + 8, Enc(p.offset, 8), r3);
    AtSplit(bytes, off + 16, Enc(p.vaddr, 8), r4);
    AtSplit(bytes, off + 24, Enc(p.paddr, 8), r5);
    AtSplit(bytes, off + 32, Enc(p.filesz, 8), r6);
    AtSplit(bytes, off + 40, Enc(p.memsz, 8), r7);
    LeField(bytes, off, 4, p.kind);
    LeField(bytes, off + 4, 4, p.flags);
    LeField(bytes, off + 8, 8, p.offset);
    LeField(bytes, off + 16, 8, p.vaddr);
    LeField(bytes, off + 32, 8, p.filesz);
    LeField(bytes, off + 40, 8, p.memsz);
  }

  // ----- What is accepted -----

  /** Why a file of `len` bytes with this header is refused, if it is. */
  function HeaderRefused(h: Header, len: nat): (e: Option<Error>)
    requires |h.ident| == 16
  {
    if h.ident[..4] != [0x7F, 0x45, 0x4C, 0x46] then Some(BadMagic)
    else if h.ident[4] != CLASS_64 then Some(Not64)
    else if h.kind != ET_EXEC then Some(NotExec)
    else if h.machine != EM_RISCV then Some(NotRiscv)
    else if h.phoff + PROGRAM_SIZE * h.phnum > len then Some(Truncated)
    else None
  }

  /** Why a program header is refused, if it is. */
  function ProgramRefused(p: Program, len: nat): (e: Option<Error>) {
    if p.kind != PT_LOAD then None
    else if p.vaddr >= USER_VA_LIMIT || p.vaddr + p.memsz > USER_VA_LIMIT then Some(AddressTooHigh)
    else if p.filesz > p.memsz then Some(BadSegment)
    else if p.offset + p.filesz > len then Some(Truncated)
    else if p.vaddr % PAGE_SIZE != p.offset % PAGE_SIZE then Some(BadSegment)
    else None
  }

  ghost predicate AllAccepted(ps: seq<Program>, len: nat) {
    forall k :: 0 <= k < |ps| ==> ProgramRefused(ps[k], len) == None
  }

  /** The segments of the headers to be loaded, in file order. */
  function Loads(ps: seq<Program>): (r: seq<Segment>) {
    if ps == [] then []
    else if ps[0].kind != PT_LOAD then Loads(ps[1..])
    else [Segment(ps[0].vaddr, ps[0].offset, ps[0].filesz, ps[0].memsz, ps[0].flags)] + Loads(ps[1..])
  }

  lemma HeaderDecided(bytes: seq<Byte>, h: Header)
    requires ReadsHeader(bytes, h)
    ensures HeaderError(bytes) == HeaderRefused(h, |bytes|)
  {
    assert bytes[0..4] == h.ident[..4] && bytes[4] == h.ident[4];
  }

  lemma ProgramDecided(bytes: seq<Byte>, off: nat, p: Program)
    requires ReadsProgram(bytes, off, p)
    ensures var r := ReadHeader(bytes, off);
            match ProgramRefused(p, |bytes|)
            case Some(e) => r == Err(e)
            case None =>
              r == Ok(if p.kind == PT_LOAD then Some(Segment(p.vaddr, p.offset, p.filesz, p.memsz, p.flags)) else None)
  {
  }

  ghost predicate TableFrom(bytes: seq<Byte>, phoff: nat, i: nat, n: nat, ps: seq<Program>) {
    && i <= n && |ps| == n - i && phoff + n * 56 <= |bytes|
    && forall k :: 0 <= k < |ps| ==> ReadsProgram(bytes, phoff + (i + k) * 56, ps[k])
  }

  /** The first header that is refused decides; without one, all segments are read. */
  lemma {:induction false} TableDecided(bytes: seq<Byte>, phoff: nat, i: nat, n: nat, ps: seq<Program>)
    requires TableFrom(bytes, phoff, i, n, ps)
    ensures var r := ReadAll(bytes, phoff, i, n);
            && (AllAccepted(ps, |bytes|) ==> r == Ok(Loads(ps)))
            && forall k :: 0 <= k < |ps| && AllAccepted(ps[..k], |bytes|) && ProgramRefused(ps[k], |bytes|).Some? ==>
                 r == Err(ProgramRefused(ps[k], |bytes|).value)
    decreases n - i
  {
    if i < n {
      var len, rest := |bytes|, ps[1..];
      assert ReadsProgram(bytes, phoff + (i + 0) * 56, ps[0]);
      ProgramDecided(bytes, phoff + i * 56, ps[0]);
      forall k | 0 <= k < |rest| ensures ReadsProgram(bytes, phoff + (i + 1 + k) * 56, rest[k]) {
        assert ReadsProgram(bytes, phoff + (i + (k + 1)) * 56, ps[k + 1]);
      }
      TableDecided(bytes, phoff, i + 1, n, rest);
      FirstAccepted(ps, len);
    }
  }

  lemma FirstAccepted(ps: seq<Program>, len: nat)
    requires ps != []
    ensures AllAccepted(ps, len) <==> ProgramRefused(ps[0], len) == None && AllAccepted(ps[1..], len)
    ensures forall k :: 0 < k <= |ps| ==>
              (AllAccepted(ps[..k], len) <==> ProgramRefused(ps[0], len) == None && AllAccepted(ps[1..][..k - 1], len))
  {
    assert forall k :: 0 < k < |ps| ==> ps[1..][k - 1] == ps[k];
    forall k | 0 < k <= |ps|
      ensures AllAccepted(ps[..k], len) <==> ProgramRefused(ps[0], len) == None && AllAccepted(ps[1..][..k - 1], len)
    {
      assert forall j :: 0 < j < k ==> ps[1..][..k - 1][j - 1] == ps[..k][j];
      assert ps[..k][0] == ps[0];
    }
  }

  lemma TableReads(bytes: seq<Byte>, h: Header, ps: seq<Program>)
    requires HasTable(bytes, h, ps) && h.phoff + PROGRAM_SIZE * h.phnum <= |bytes|
    ensures TableFrom(bytes, h.phoff, 0, h.phnum, ps)
  {
    forall k | 0 <= k < |ps| ensures ReadsProgram(bytes, h.phoff + (0 + k) * 56, ps[k]) {
      ProgramReads(bytes, h.phoff + PROGRAM_SIZE * k, ps[k]);
    }
  }

  // ----- The theorems -----

  /** The result of a file that is accepted: its entry, and its segments in address order. */
  ghost predicate Accepts(r: Result<ElfInfo>, entry: nat, segments: seq<Segment>) {
    r.Ok? && r.value.entry == entry && Sorted(r.value.segments) && multiset(r.value.segments) == multiset(segments)
  }

  /**
    Every file that begins with a header and has its table: a header that is refused gives its error; else the first
    program header that is refused gives its error; else the file is refused for overlap exactly when two of the
    segments to be loaded clash; else the entry and all of these segments, sorted by address, are returned.
  */
  lemma ParseDecides(bytes: seq<Byte>, h: Header, ps: seq<Program>)
    requires HasHeader(bytes, h) && HasTable(bytes, h, ps)
    ensures var e := HeaderRefused(h, |bytes|); e.Some? ==> Parse(bytes) == Err(e.value)
    ensures HeaderRefused(h, |bytes|) == None ==>
              && (forall k :: 0 <= k < |ps| && AllAccepted(ps[..k], |bytes|) && ProgramRefused(ps[k], |bytes|).Some? ==>
                    Parse(bytes) == Err(ProgramRefused(ps[k], |bytes|).value))
              && (AllAccepted(ps, |bytes|) && AnyClash(Loads(ps)) ==> Parse(bytes) == Err(Overlap))
              && (AllAccepted(ps, |bytes|) && !AnyClash(Loads(ps)) ==> Accepts(Parse(bytes), h.entry, Loads(ps)))
  {
    HeaderReads(bytes, h);
    HeaderDecided(bytes, h);
    if HeaderRefused(h, |bytes|) == None {
      TableReads(bytes, h, ps);
      TableDecided(bytes, h.phoff, 0, h.phnum, ps);
      ClashIff(Loads(ps));
      SortSorted(Loads(ps));
    }
  }

  lemma {:induction false} FirstRefused(ps: seq<Program>, len: nat) returns (k: nat)
    requires !AllAccepted(ps, len)
    ensures k < |ps| && AllAccepted(ps[..k], len) && ProgramRefused(ps[k], len).Some?
    decreases |ps|
  {
    var n := |ps| - 1;
    if AllAccepted(ps[..n], len) {
      k := n;
      assert forall i :: 0 <= i < n ==> ps[..n][i] == ps[i];
    } else {
      k := FirstRefused(ps[..n], len);
      assert ps[..n][..k] == ps[..k];
    }
  }

  /** A file is accepted exactly when neither its header nor a program header is refused and no two segments clash. */
  lemma AcceptedIff(bytes: seq<Byte>, h: Header, ps: seq<Program>)
    requires HasHeader(bytes, h) && HasTable(bytes, h, ps)
    ensures Parse(bytes).Ok? <==>
            HeaderRefused(h, |bytes|) == None && AllAccepted(ps, |bytes|) && !AnyClash(Loads(ps))
  {
    ParseDecides(bytes, h, ps);
    if HeaderRefused(h, |bytes|) == None && !AllAccepted(ps, |bytes|) {
      var k := FirstRefused(ps, |bytes|);
    }
  }

  /** Every string of bytes is too short for a header, or begins with one and has a table. */
  lemma EveryFile(bytes: seq<Byte>) returns (h: Header, ps: seq<Program>)
    ensures if |bytes| < HEADER_SIZE then Parse(bytes) == Err(Truncated)
            else HasHeader(bytes, h) && HasTable(bytes, h, ps)
  {
    if |bytes| < HEADER_SIZE {
      h, ps := Header([], 0, 0, 0, 0, 0, 0, 0, 0, 0, 0, 0, 0, 0), [];
    } else {
      h := HeaderOf(bytes);
      HeaderIs(bytes);
      if h.phoff + PROGRAM_SIZE * h.phnum > |bytes| {
        ps := [];
      } else {
        ps := seq(h.phnum, i requires 0 <= i < h.phnum => ProgramOf(bytes, h.phoff + PROGRAM_SIZE * i));
        forall i | 0 <= i < |ps|
          ensures ProgramFits(ps[i]) && At(bytes, h.phoff + PROGRAM_SIZE * i, EncodeProgram(ps[i]))
        {
          ProgramIs(bytes, h.phoff + PROGRAM_SIZE * i);
        }
      }
    }
  }

  function HeaderOf(bytes: seq<Byte>): (h: Header)
    requires |bytes| >= HEADER_SIZE
  {
    Header(bytes[..16], Le(bytes, 16, 2), Le(bytes, 18, 2), Le(bytes, 20, 4), Le(bytes, 24, 8), Le(bytes, 32, 8),
      Le(bytes, 40, 8), Le(bytes, 48, 4), Le(bytes, 52, 2), Le(bytes, 54, 2), Le(bytes, 56, 2), Le(bytes, 58, 2),
      Le(bytes, 60, 2), Le(bytes, 62, 2))
  }

  function ProgramOf(bytes: seq<Byte>, off: nat): (p: Program)
    requires off + PROGRAM_SIZE <= |bytes|
  {
    Program(Le(bytes, off, 4), Le(bytes, off + 4, 4), Le(bytes, off + 8, 8), Le(bytes, off + 16, 8),
      Le(bytes, off + 24, 8), Le(bytes, off + 32, 8), Le(bytes, off + 40, 8), Le(bytes, off + 48, 8))
  }

  lemma {:induction false} FieldIs(bytes: seq<Byte>, i: nat, n: nat)
    requires i + n <= |bytes|
    ensures At(bytes, i, Enc(Le(bytes, i, n), n)) && Le(bytes, i, n) < Limit(n)
    decreases n
  {
    if n > 0 {
      FieldIs(bytes, i + 1, n - 1);
      var v := Le(bytes, i, n);
      assert v % 256 == bytes[i] && v / 256 == Le(bytes, i + 1, n - 1);
      assert bytes[i..i + 1] == [bytes[i]];
      AtSplit(bytes, i, [v % 256], Enc(v / 256, n - 1));
    }
  }

  /** Fields that stand one after the other. */
  lemma FieldBefore(bytes: seq<Byte>, i: nat, n: nat, rest: seq<Byte>)
    requires i + n <= |bytes| && At(bytes, i + n, rest)
    ensures At(bytes, i, Enc(Le(bytes, i, n), n) + rest) && Le(bytes, i, n) < Limit(n)
  {
    FieldIs(bytes, i, n);
    AtSplit(bytes, i, Enc(Le(bytes, i, n), n), rest);
  }

  lemma HeaderIs(bytes: seq<Byte>)
    requires |bytes| >= HEADER_SIZE
    ensures HasHeader(bytes, HeaderOf(bytes))
  {
    var h := HeaderOf(bytes);
    var r13 := Enc(h.shstrndx, 2);
    var r12 := Enc(h.shnum, 2) + r13;
    var r11 := Enc(h.shentsize, 2) + r12;
    var r10 := Enc(h.phnum, 2) + r11;
    var r9 := Enc(h.phentsize, 2) + r10;
    var r8 := Enc(h.ehsize, 2) + r9;
    var r7 := Enc(h.flags, 4) + r8;
    var r6 := Enc(h.shoff, 8) + r7;
    var r5 := Enc(h.phoff, 8) + r6;
    var r4 := Enc(h.entry, 8) + r5;
    var r3 := Enc(h.version, 4) + r4;
    var r2 := Enc(h.machine, 2) + r3;
    var r1 := Enc(h.kind, 2) + r2;
    FieldIs(bytes, 62, 2);
    FieldBefore(bytes, 60, 2, r13);
    FieldBefore(bytes, 58, 2, r12);
    FieldBefore(bytes, 56, 2, r11);
    FieldBefore(bytes, 54, 2, r10);
    FieldBefore(bytes, 52, 2, r9);
    FieldBefore(bytes, 48, 4, r8);
    FieldBefore(bytes, 40, 8, r7);
    FieldBefore(bytes, 32, 8, r6);
    FieldBefore(bytes, 24, 8, r5);
    FieldBefore(bytes, 20, 4, r4);
    FieldBefore(bytes, 18, 2, r3);
    FieldBefore(bytes, 16, 2, r2);
    AtSplit(bytes, 0, h.ident, r1);
  }

  lemma ProgramIs(bytes: seq<Byte>, off: nat)
    requires off + PROGRAM_SIZE <= |bytes|
    ensures var p := ProgramOf(bytes, off); ProgramFits(p) && At(bytes, off, EncodeProgram(p))
  {
    var p := ProgramOf(bytes, off);
    var r7 := Enc(p.align, 8);
    var r6 := Enc(p.memsz, 8) + r7;
    var r5 := Enc(p.filesz, 8) + r6;
    var r4 := Enc(p.paddr, 8) + r5;
    var r3 := Enc(p.vaddr, 8) + r4;
    var r2 := Enc(p.offset, 8) + r3;
    var r1 := Enc(p.flags, 4) + r2;
    FieldIs(bytes, off + 48, 8);
    FieldBefore(bytes, off + 40, 8, r7);
    FieldBefore(bytes, off + 32, 8, r6);
    FieldBefore(bytes, off + 24, 8, r5);
    FieldBefore(bytes, off + 16, 8, r4);
    FieldBefore(bytes, off + 8, 8, r3);
    FieldBefore(bytes, off + 4, 4, r2);
    FieldBefore(bytes, off, 4, r1);
  }

  // ----- Writing a file and reading it -----

  function ProgramFor(s: Segment): (p: Program) {
    Program(PT_LOAD, s.flags, s.offset, s.vaddr, s.vaddr, s.filesz, s.memsz, PAGE_SIZE)
  }

  function Table(segments: seq<Segment>): (r: seq<Byte>)
    ensures |r| == PROGRAM_SIZE * |segments|
  {
    if segments == [] then [] else EncodeProgram(ProgramFor(segments[0])) + Table(segments[1..])
  }

  /** A 64-bit RISC-V executable: the header, a program header for each segment, and the rest of the file. */
  function WriteElf(entry: nat, segments: seq<Segment>, rest: seq<Byte>): (r: seq<Byte>)
    ensures |r| == HEADER_SIZE + PROGRAM_SIZE * |segments| + |rest|
  {
    EncodeHeader(HeaderFor(entry, |segments|)) + (Table(segments) + rest)
  }

  function HeaderFor(entry: nat, n: nat): (h: Header)
    ensures |h.ident| == 16
  {
    Header([0x7F, 0x45, 0x4C, 0x46, CLASS_64, 1, 1, 0, 0, 0, 0, 0, 0, 0, 0, 0], ET_EXEC, EM_RISCV, 1, entry,
      HEADER_SIZE, 0, 0, HEADER_SIZE, PROGRAM_SIZE, n, 0, 0, 0)
  }

  function Programs(segments: seq<Segment>): (r: seq<Program>)
    ensures |r| == |segments| && forall i :: 0 <= i < |r| ==> r[i] == ProgramFor(segments[i])
  {
    seq(|segments|, i requires 0 <= i < |segments| => ProgramFor(segments[i]))
  }

  lemma {:induction false} TableAt(bytes: seq<Byte>, off: nat, segments: seq<Segment>, i: nat)
    requires At(bytes, off, Table(segments)) && i < |segments|
    ensures At(bytes, off + PROGRAM_SIZE * i, EncodeProgram(ProgramFor(segments[i])))
    decreases i
  {
    var first := EncodeProgram(ProgramFor(segments[0]));
    AtSplit(bytes, off, first, Table(segments[1..]));
    if i > 0 { TableAt(bytes, off + PROGRAM_SIZE, segments[1..], i - 1); }
  }

  lemma {:induction false} LoadsBack(segments: seq<Segment>, ps: seq<Program>)
    requires |ps| == |segments| && forall i :: 0 <= i < |ps| ==> ps[i] == ProgramFor(segments[i])
    ensures Loads(ps) == segments
    decreases |ps|
  {
    if ps != [] {
      LoadsBack(segments[1..], ps[1..]);
      assert segments == [segments[0]] + segments[1..];
    }
  }

  /** What a list of segments and an entry must satisfy to be written and accepted. */
  ghost predicate Writable(entry: nat, segments: seq<Segment>, len: nat) {
    && entry < Limit(8) && |segments| < Limit(2) && !AnyClash(segments) && len < Limit(8)
    && forall i :: 0 <= i < |segments| ==> SegmentOk(segments[i], len) && segments[i].flags < Limit(4)
  }

  /** Reading back what has been written gives the entry and the segments, in address order. */
  lemma RoundTrip(entry: nat, segments: seq<Segment>, rest: seq<Byte>)
    requires Writable(entry, segments, |WriteElf(entry, segments, rest)|)
    ensures Accepts(Parse(WriteElf(entry, segments, rest)), entry, segments)
  {
    var bytes, h, ps := WriteElf(entry, segments, rest), HeaderFor(entry, |segments|), Programs(segments);
    Written(bytes, entry, segments, rest);
    ParseDecides(bytes, h, ps);
    LoadsBack(segments, ps);
  }

  lemma Written(bytes: seq<Byte>, entry: nat, segments: seq<Segment>, rest: seq<Byte>)
    requires bytes == WriteElf(entry, segments, rest) && Writable(entry, segments, |bytes|)
    ensures HasHeader(bytes, HeaderFor(entry, |segments|))
    ensures HasTable(bytes, HeaderFor(entry, |segments|), Programs(segments))
  {
    var header, table, ps := EncodeHeader(HeaderFor(entry, |segments|)), Table(segments), Programs(segments);
    assert bytes[0..|bytes|] == bytes;
    AtSplit(bytes, 0, header, table + rest);
    AtSplit(bytes, HEADER_SIZE, table, rest);
    Limits();
    forall i | 0 <= i < |ps|
      ensures ProgramFits(ps[i]) && At(bytes, HEADER_SIZE + PROGRAM_SIZE * i, EncodeProgram(ps[i]))
    {
      assert SegmentOk(segments[i], |bytes|);
      TableAt(bytes, HEADER_SIZE, segments, i);
    }
  }

  lemma Limits()
    ensures Limit(2) == 0x1_0000 && Limit(4) == 0x1_0000_0000 && Limit(8) == WORD_LIMIT
  {
    WordLimit();
    assert Limit(1) == 256 && Limit(2) == 0x1_0000 && Limit(3) == 0x100_0000 && Limit(4) == 0x1_0000_0000;
  }
}
