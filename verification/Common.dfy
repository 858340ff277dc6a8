/** What several components share: the constants of param.h and of the C language, and facts about
    sets, lists and rings. */
module Common {

  const UINT: nat := 0x1_0000_0000   // one more than the largest unsigned int
  const MAXOPBLOCKS: nat := 10

  predicate Distinct(s: seq<nat>) { forall i, j :: 0 <= i < j < |s| ==> s[i] != s[j] }

  lemma {:induction false} SubsetSize(a: set<nat>, b: set<nat>)
    requires a <= b
    ensures |a| <= |b|
  {
    if a != {} {
      var x :| x in a;
      SubsetSize(a - {x}, b - {x});
    }
  }

  lemma DivMod(i: nat, n: nat)
    requires n > 0
    ensures i == n * (i / n) + i % n
  {
  }

  lemma NoMultipleBetween(n: nat, k: int)
    requires n > 0
    ensures !(0 < n * k < n)
  {
    if k > 0 { assert n * k >= n; }
  }

  /** Counters less than the size of a ring apart use different slots of it. */
  lemma RingApart(i: nat, j: nat, size: nat)
    requires i < j < i + size
    ensures i % size != j % size
  {
    DivMod(i, size);
    DivMod(j, size);
    NoMultipleBetween(size, j / size - i / size);
    if i % size == j % size {
      Distribute(size, j / size, i / size);
    }
  }

  lemma Distribute(n: nat, p: nat, q: nat)
    ensures n * (p - q) == n * p - n * q
  {
  }
}
