/** Definitions shared by several parts of the model. */
module Common {

  datatype Option<+T> = None | Some(value: T)

  ghost predicate NoDup(l: seq<nat>) {
    forall i, j :: 0 <= i < j < |l| ==> l[i] != l[j]
  }

  lemma NoDupJoin(a: seq<nat>, b: seq<nat>)
    requires NoDup(a) && NoDup(b) && forall x :: x in a ==> x !in b
    ensures NoDup(a + b)
  {
    forall i, j | 0 <= i < j < |a + b| ensures (a + b)[i] != (a + b)[j] {
      if i < |a| <= j { assert a[i] in a && b[j - |a|] in b; }
    }
  }

  /** `l` without the first occurrence of `x`. */
  function Without(l: seq<nat>, x: nat): (r: seq<nat>)
  {
    if l == [] then [] else if l[0] == x then l[1..] else [l[0]] + Without(l[1..], x)
  }

  lemma {:induction false} WithoutFacts(l: seq<nat>, x: nat)
    requires NoDup(l)
    ensures NoDup(Without(l, x)) && forall y :: y in Without(l, x) <==> y in l && y != x
  {
    if l != [] {
      assert forall y :: y in l <==> y == l[0] || y in l[1..];
      assert l[0] !in l[1..];
      WithoutFacts(l[1..], x);
      if l[0] != x {
        assert Without(l, x)[1..] == Without(l[1..], x);
      }
    }
  }

  /** How often `x` occurs in `l`. */
  function Count(l: seq<nat>, x: nat): (r: nat) {
    if l == [] then 0 else (if l[0] == x then 1 else 0) + Count(l[1..], x)
  }

  lemma CountCons(a: nat, l: seq<nat>, x: nat)
    ensures Count([a] + l, x) == (if a == x then 1 else 0) + Count(l, x)
  {
    assert ([a] + l)[1..] == l;
  }

  lemma {:induction false} CountJoin(a: seq<nat>, b: seq<nat>, x: nat)
    ensures Count(a + b, x) == Count(a, x) + Count(b, x)
  {
    if a == [] {
      assert a + b == b;
    } else {
      assert (a + b)[1..] == a[1..] + b;
      CountJoin(a[1..], b, x);
    }
  }

  // ----- Places in a queue -----

  /** Where `w` stands in queue `q`. */
  function Rank(q: seq<nat>, w: nat): (k: nat)
    ensures k <= |q| && (k < |q| ==> q[k] == w) && (w in q ==> k < |q|)
  {
    if q == [] || q[0] == w then 0 else 1 + Rank(q[1..], w)
  }

  lemma RankJoin(q: seq<nat>, x: nat, w: nat)
    requires w in q
    ensures Rank(q + [x], w) == Rank(q, w)
  {
    if q[0] != w {
      assert (q + [x])[1..] == q[1..] + [x];
      RankJoin(q[1..], x, w);
    }
  }

  lemma RankDrop(q: seq<nat>, k: nat, w: nat)
    requires w in q && k <= Rank(q, w)
    ensures w in q[k..] && Rank(q[k..], w) == Rank(q, w) - k
    decreases k
  {
    if k > 0 {
      RankDrop(q[1..], k - 1, w);
      assert q[1..][k - 1..] == q[k..];
    }
  }

  lemma RankFront(a: seq<nat>, b: seq<nat>, w: nat)
    requires w in a
    ensures w in a + b && Rank(a + b, w) == Rank(a, w)
  {
    if a[0] != w {
      assert (a + b)[1..] == a[1..] + b;
      RankFront(a[1..], b, w);
    }
  }

  lemma RankLast(q: seq<nat>, x: nat)
    requires x !in q
    ensures Rank(q + [x], x) == |q|
  {
    if q != [] {
      assert (q + [x])[1..] == q[1..] + [x];
      RankLast(q[1..], x);
    }
  }

  lemma RankUnique(q: seq<nat>, j: nat, x: nat)
    requires j < |q| && q[j] == x
    ensures x in q && Rank(q, x) <= j
  {
    if q[0] != x { RankUnique(q[1..], j - 1, x); }
  }

  lemma RankFirst(q: seq<nat>, j: nat, w: nat)
    requires j < Rank(q, w)
    ensures q[j] != w
  {
    if j < |q| && q[j] == w { RankUnique(q, j, w); }
  }
}
