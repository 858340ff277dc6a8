/** The heap of umalloc.c as a value: memory in units of one header, the circular free list,
    and the blocks handed out. */
module HeapModel {

  /** union header: `ptr` links free blocks, `size` counts units, header included. */
  datatype Header = Header(ptr: nat, size: nat)

  const NULL: nat := 0
  const BASE: nat := 1   // the address of `base`, below everything sbrk returns

  /** `frees` holds the free blocks and BASE, `live` the blocks handed out with their sizes,
      and `owner` says to which block each unit obtained from sbrk belongs. */
  datatype Heap = Heap(mem: seq<Header>, frees: set<nat>, live: map<nat, nat>, owner: map<nat, nat>)

  function Ptr(h: Heap, a: nat): nat
    requires a < |h.mem|
  {
    h.mem[a].ptr
  }

  function Size(h: Heap, a: nat): nat
    requires a < |h.mem|
  {
    h.mem[a].size
  }

  /** Address order, wrapping once: `a` points to the next free block above it, or to BASE
      if there is none. */
  ghost predicate Linked(h: Heap, a: nat)
    requires a < |h.mem|
  {
    && Ptr(h, a) in h.frees
    && (Ptr(h, a) == BASE || a < Ptr(h, a))
    && forall f :: f in h.frees && a < f ==> a < Ptr(h, a) <= f
  }

  ghost predicate Circle(h: Heap) {
    && BASE in h.frees && BASE < |h.mem|
    && (forall a :: a in h.frees ==> BASE <= a < |h.mem|)
    && (forall a {:trigger Linked(h, a)} :: a in h.frees ==> Linked(h, a))
    && (forall a :: a in h.frees ==> (a == BASE <==> Size(h, a) == 0))
  }

  predicate IsBlock(h: Heap, a: nat) { a in h.live || (a in h.frees && a != BASE) }

  ghost predicate Blocks(h: Heap) {
    && (forall a :: a in h.live ==> BASE < a < |h.mem| && a !in h.frees && Size(h, a) == h.live[a] >= 1)
    && (forall u :: u in h.owner ==> BASE < u < |h.mem|)
  }

  /** Unit `u` lies in block `a`. */
  predicate In(h: Heap, a: nat, u: nat) { IsBlock(h, a) && a < |h.mem| && a <= u < a + Size(h, a) }

  predicate Owns(h: Heap, a: nat, u: nat) { u in h.owner && h.owner[u] == a }

  /** Every unit obtained from sbrk lies in exactly one block, and every block consists of
      units obtained. */
  ghost predicate Partition(h: Heap) {
    && (forall a, u {:trigger In(h, a, u)} :: In(h, a, u) ==> Owns(h, a, u))
    && (forall a, u {:trigger Owns(h, a, u)} :: Owns(h, a, u) ==> In(h, a, u))
  }

  ghost predicate Good(h: Heap) { Circle(h) && Blocks(h) && Partition(h) }

  /** Free block `a` ends where another begins. */
  predicate Touches(h: Heap, a: nat)
    requires a < |h.mem|
  {
    a != BASE && a + Size(h, a) in h.frees
  }

  /** No two free blocks are adjacent. */
  ghost predicate Tight(h: Heap)
    requires Circle(h)
  {
    forall a :: a in h.frees ==> !Touches(h, a)
  }

  // ----- linking a block in, and joining two neighbours -----

  /** `b` belongs right after the free block `p`. */
  predicate Fits(h: Heap, p: nat, b: nat)
    requires p < |h.mem|
  {
    p in h.frees && p < b && (Ptr(h, p) == BASE || b < Ptr(h, p))
  }

  function Insert(h: Heap, p: nat, b: nat): Heap
    requires p < |h.mem| && b < |h.mem|
  {
    var m := h.mem[b := Header(Ptr(h, p), Size(h, b))];
    Heap(m[p := Header(b, m[p].size)], h.frees + {b}, h.live - {b}, h.owner)
  }

  function Retag(owner: map<nat, nat>, from: nat, to: nat): map<nat, nat> {
    map u | u in owner :: if owner[u] == from then to else owner[u]
  }

  /** `x` swallows the free block after it. */
  function Join(h: Heap, x: nat): Heap
    requires x < |h.mem| && Ptr(h, x) < |h.mem|
  {
    var y := Ptr(h, x);
    Heap(h.mem[x := Header(Ptr(h, y), Size(h, x) + Size(h, y))], h.frees - {y}, h.live, Retag(h.owner, y, x))
  }

  lemma InsertLinked(h: Heap, p: nat, b: nat, a: nat)
    requires Circle(h) && p < |h.mem| && b < |h.mem| && Fits(h, p, b)
    requires b !in h.frees && (a == b || a in h.frees)
    ensures Linked(Insert(h, p, b), a)
  {
    assert Linked(h, p);
    assert a != b ==> Linked(h, a);
  }

  lemma InsertCircle(h: Heap, p: nat, b: nat)
    requires Circle(h) && Blocks(h) && b in h.live && p < |h.mem| && Fits(h, p, b)
    ensures Circle(Insert(h, p, b))
  {
    hide Linked, Fits;
    var h' := Insert(h, p, b);
    forall a | a in h'.frees
      ensures Linked(h', a)
    {
      InsertLinked(h, p, b, a);
    }
    assert p in h.frees by { FitsFree(h, p, b); }
  }

  lemma FitsFree(h: Heap, p: nat, b: nat)
    requires p < |h.mem| && Fits(h, p, b)
    ensures p in h.frees
  {
  }

  lemma InsertGood(h: Heap, p: nat, b: nat)
    requires Good(h) && b in h.live && p < |h.mem| && Fits(h, p, b)
    ensures Good(Insert(h, p, b))
  {
    hide Linked;
    InsertCircle(h, p, b);
    var h' := Insert(h, p, b);
    assert forall a, u :: In(h', a, u) <==> In(h, a, u);
    assert forall a, u :: Owns(h', a, u) <==> Owns(h, a, u);
  }

  /** Joining needs the block after `x` to begin where `x` ends. */
  predicate Joinable(h: Heap, x: nat)
    requires x < |h.mem|
  {
    x in h.frees && x != BASE && x + Size(h, x) == Ptr(h, x)
  }

  lemma JoinFacts(h: Heap, x: nat)
    requires Circle(h) && x < |h.mem| && Joinable(h, x)
    ensures var y := Ptr(h, x); y in h.frees && x < y < |h.mem| && y != BASE
  {
    assert Linked(h, x);
  }

  lemma JoinLinked(h: Heap, x: nat, a: nat)
    requires Circle(h) && x < |h.mem| && Joinable(h, x) && Ptr(h, x) < |h.mem|
    requires a in h.frees && a != Ptr(h, x)
    ensures Linked(Join(h, x), a)
  {
    JoinFacts(h, x);
    assert Linked(h, x);
    assert Linked(h, Ptr(h, x));
    assert Linked(h, a);
  }

  lemma JoinCircle(h: Heap, x: nat)
    requires Circle(h) && Blocks(h) && x < |h.mem| && Joinable(h, x)
    ensures x < Ptr(h, x) < |h.mem| && Circle(Join(h, x))
  {
    hide Linked;
    JoinFacts(h, x);
    var h' := Join(h, x);
    forall a | a in h'.frees
      ensures Linked(h', a)
    {
      JoinLinked(h, x, a);
    }
  }

  lemma JoinGood(h: Heap, x: nat)
    requires Good(h) && x < |h.mem| && Joinable(h, x)
    ensures x < Ptr(h, x) < |h.mem| && Good(Join(h, x))
  {
    hide Linked;
    JoinFacts(h, x);
    JoinCircle(h, x);
    var y, h' := Ptr(h, x), Join(h, x);
    assert forall a, u :: In(h', a, u) <==> if a == x then In(h, x, u) || In(h, y, u) else a != y && In(h, a, u);
    assert forall a, u :: Owns(h', a, u) <==>
           if a == x then Owns(h, x, u) || Owns(h, y, u) else a != y && Owns(h, a, u);
  }

  // ----- free -----

  /** A free block is followed at once by another exactly when the next one round the circle
      begins where it ends: the tests free() makes are enough. */
  lemma TouchesIsJoinable(h: Heap, a: nat)
    requires Good(h) && a in h.frees
    ensures Touches(h, a) <==> Joinable(h, a)
  {
    assert Linked(h, a);
    if Touches(h, a) && a != BASE {
      var f, y := a + Size(h, a), Ptr(h, a);
      assert a < y <= f;
      if y < f {
        assert In(h, y, y) && In(h, a, y);
      }
    }
  }

  /** free() of block `b`, whose place in the circle is after `p`. */
  function FreeSpec(h: Heap, p: nat, b: nat): Heap
    requires Good(h) && b in h.live && p < |h.mem| && Fits(h, p, b)
  {
    InsertGood(h, p, b);
    var h1 := Insert(h, p, b);
    var h2 := if Joinable(h1, b) then JoinGood(h1, b); Join(h1, b) else h1;
    if Joinable(h2, p) then JoinGood(h2, p); Join(h2, p) else h2
  }

  ghost predicate TightBut(h: Heap, x: nat, y: nat)
    requires Circle(h)
  {
    forall a :: a in h.frees && a != x && a != y ==> !Touches(h, a)
  }

  lemma InsertTight(h: Heap, p: nat, b: nat)
    requires Good(h) && Tight(h) && b in h.live && p < |h.mem| && Fits(h, p, b)
    ensures Good(Insert(h, p, b)) && TightBut(Insert(h, p, b), p, b)
  {
    InsertGood(h, p, b);
    var h' := Insert(h, p, b);
    assert Linked(h, p);
    forall a | a in h'.frees && a != p && a != b
      ensures !Touches(h', a)
    {
      assert !Touches(h, a);
      if a != BASE && a + Size(h, a) == b {
        assert a < p;
        assert In(h, a, p) && (p != BASE ==> In(h, p, p));
      }
    }
  }

  lemma JoinTight(h: Heap, x: nat, z: nat)
    requires Good(h) && x < |h.mem| && Joinable(h, x) && TightBut(h, x, z) && Ptr(h, x) != z
    ensures x < Ptr(h, x) < |h.mem| && Good(Join(h, x)) && TightBut(Join(h, x), z, z)
  {
    hide Linked, Partition, Blocks;
    JoinGood(h, x);
    JoinFacts(h, x);
    var h', y := Join(h, x), Ptr(h, x);
    forall a | a in h'.frees && a != z
      ensures !Touches(h', a)
    {
      assert !Touches(h, if a == x then y else a);
    }
  }

  /** free() takes back exactly the block, keeps the circle in order and leaves no two free
      blocks adjacent. */
  lemma FreeKeeps(h: Heap, p: nat, b: nat)
    requires Good(h) && Tight(h) && b in h.live && p < |h.mem| && Fits(h, p, b)
    ensures var h' := FreeSpec(h, p, b);
            && Good(h') && Tight(h') && p in h'.frees
            && h'.live == h.live - {b} && h'.owner.Keys == h.owner.Keys && |h'.mem| == |h.mem|
  {
    hide Linked, Partition;
    InsertTight(h, p, b);
    var h1 := Insert(h, p, b);
    FitsFree(h, p, b);
    assert Ptr(h1, p) == b;
    if Joinable(h1, b) {
      JoinFacts(h1, b);
      JoinTight(h1, b, p);
    } else {
      TouchesIsJoinable(h1, b);
    }
    var h2 := if Joinable(h1, b) then Join(h1, b) else h1;
    assert Good(h2) && TightBut(h2, p, p) && Ptr(h2, p) == b && p in h2.frees;
    if Joinable(h2, p) {
      JoinFacts(h2, p);
      JoinTight(h2, p, BASE);
    } else {
      TouchesIsJoinable(h2, p);
    }
  }

  // ----- malloc -----

  /** `p` is free, large enough, and follows `prev`. */
  ghost predicate Usable(h: Heap, prev: nat, p: nat, n: nat)
    requires Circle(h)
  {
    prev in h.frees && p in h.frees && Ptr(h, prev) == p && 1 <= n <= Size(h, p)
  }

  /** The block malloc carves out of `p`: all of it, or its upper end. */
  function Carved(h: Heap, p: nat, n: nat): nat
    requires p < |h.mem| && n <= Size(h, p)
  {
    p + Size(h, p) - n
  }

  function Take(h: Heap, prev: nat, p: nat, n: nat): Heap
    requires prev < |h.mem| && p < |h.mem| && n <= Size(h, p) && Carved(h, p, n) < |h.mem|
  {
    var q := Carved(h, p, n);
    if Size(h, p) == n then
      Heap(h.mem[prev := Header(Ptr(h, p), Size(h, prev))], h.frees - {p}, h.live[p := n], h.owner)
    else
      var m := h.mem[p := Header(Ptr(h, p), Size(h, p) - n)];
      Heap(m[q := Header(m[q].ptr, n)], h.frees, h.live[q := n], Cut(h.owner, p, q))
  }

  /** The units of block `from` at or above `q` become a block of their own. */
  function Cut(owner: map<nat, nat>, from: nat, q: nat): map<nat, nat> {
    map u | u in owner :: if owner[u] == from && q <= u then q else owner[u]
  }

  lemma CarvedInside(h: Heap, prev: nat, p: nat, n: nat)
    requires Good(h) && Usable(h, prev, p, n)
    ensures p != BASE && p != prev && p <= Carved(h, p, n) < |h.mem|
    ensures Size(h, p) != n ==> !IsBlock(h, Carved(h, p, n)) && Carved(h, p, n) != BASE
  {
    var q := Carved(h, p, n);
    assert In(h, p, q);
    if IsBlock(h, q) { assert In(h, q, q); }
    assert Linked(h, prev);
  }

  lemma UnlinkLinked(h: Heap, prev: nat, p: nat, n: nat, a: nat)
    requires Good(h) && Usable(h, prev, p, n) && Size(h, p) == n && a in h.frees && a != p
    ensures p != BASE && Linked(Take(h, prev, p, n), a)
  {
    CarvedInside(h, prev, p, n);
    assert Linked(h, prev);
    assert Linked(h, p);
    assert Linked(h, a);
  }

  lemma UnlinkCircle(h: Heap, prev: nat, p: nat, n: nat)
    requires Good(h) && Tight(h) && Usable(h, prev, p, n) && Size(h, p) == n
    ensures Carved(h, p, n) < |h.mem| && Circle(Take(h, prev, p, n)) && Tight(Take(h, prev, p, n))
  {
    hide Linked, Partition;
    CarvedInside(h, prev, p, n);
    var h' := Take(h, prev, p, n);
    forall a | a in h'.frees
      ensures Linked(h', a) && !Touches(h', a)
    {
      UnlinkLinked(h, prev, p, n, a);
      assert !Touches(h, a);
    }
  }

  lemma UnlinkKeeps(h: Heap, prev: nat, p: nat, n: nat)
    requires Good(h) && Tight(h) && Usable(h, prev, p, n) && Size(h, p) == n
    ensures Carved(h, p, n) < |h.mem| && Good(Take(h, prev, p, n)) && Tight(Take(h, prev, p, n))
  {
    hide Linked, Touches;
    CarvedInside(h, prev, p, n);
    UnlinkCircle(h, prev, p, n);
    var h' := Take(h, prev, p, n);
    assert forall a, u :: In(h', a, u) <==> In(h, a, u);
    assert forall a, u :: Owns(h', a, u) <==> Owns(h, a, u);
  }

  lemma SplitLinked(h: Heap, prev: nat, p: nat, n: nat, a: nat)
    requires Good(h) && Usable(h, prev, p, n) && Size(h, p) != n && a in h.frees
    ensures Carved(h, p, n) < |h.mem| && Linked(Take(h, prev, p, n), a)
  {
    CarvedInside(h, prev, p, n);
    assert Linked(h, a);
  }

  lemma SplitCircle(h: Heap, prev: nat, p: nat, n: nat)
    requires Good(h) && Tight(h) && Usable(h, prev, p, n) && Size(h, p) != n
    ensures Carved(h, p, n) < |h.mem| && Circle(Take(h, prev, p, n)) && Tight(Take(h, prev, p, n))
  {
    hide Linked;
    CarvedInside(h, prev, p, n);
    var h', q := Take(h, prev, p, n), Carved(h, p, n);
    forall a | a in h'.frees
      ensures Linked(h', a) && !Touches(h', a)
    {
      SplitLinked(h, prev, p, n, a);
      assert !Touches(h, a);
    }
  }

  lemma SplitKeeps(h: Heap, prev: nat, p: nat, n: nat)
    requires Good(h) && Tight(h) && Usable(h, prev, p, n) && Size(h, p) != n
    ensures Carved(h, p, n) < |h.mem| && Good(Take(h, prev, p, n)) && Tight(Take(h, prev, p, n))
  {
    hide Linked, Touches;
    CarvedInside(h, prev, p, n);
    SplitCircle(h, prev, p, n);
    var h', q := Take(h, prev, p, n), Carved(h, p, n);
    assert forall a, u :: In(h', a, u) <==>
      if a == p then In(h, p, u) && u < q else if a == q then In(h, p, u) && q <= u else In(h, a, u);
    assert forall a, u :: Owns(h', a, u) <==>
      if a == p then Owns(h, p, u) && u < q
      else if a == q then (Owns(h, p, u) && q <= u) || Owns(h, q, u)
      else Owns(h, a, u);
  }

  /** malloc() hands out a block of `n` units that no one else holds, takes nothing else
      from the free list and keeps it in order. */
  lemma TakeKeeps(h: Heap, prev: nat, p: nat, n: nat)
    requires Good(h) && Tight(h) && Usable(h, prev, p, n)
    ensures var q := Carved(h, p, n);
            && q < |h.mem| && q !in h.live && q != NULL && q + n <= |h.mem|
            && var h' := Take(h, prev, p, n);
               Good(h') && Tight(h') && h'.live == h.live[q := n] && h'.owner.Keys == h.owner.Keys && prev in h'.frees
  {
    CarvedInside(h, prev, p, n);
    assert IsBlock(h, p);
    if Size(h, p) == n { UnlinkKeeps(h, prev, p, n); } else { SplitKeeps(h, prev, p, n); }
    assert In(h, p, p + Size(h, p) - 1);
  }

  // ----- what is not written -----

  /** Of the memory there was, nothing has been written but the headers of free blocks, `base` and the
      header of block `b`. */
  ghost predicate WritesHeaders(h: Heap, h': Heap, b: nat) {
    && |h.mem| <= |h'.mem|
    && forall u: nat {:trigger h'.mem[u]} :: u < |h.mem| && u !in h.frees && u != BASE && u != b ==>
         h'.mem[u] == h.mem[u]
  }

  /** Unit `u` is as it was. */
  predicate SameUnit(h: Heap, h': Heap, u: nat) { u < |h.mem| && u < |h'.mem| && h'.mem[u] == h.mem[u] }

  /** Every unit of every block that stays with its holder, header and payload, is as it was. */
  ghost predicate KeepsHeld(h: Heap, h': Heap) {
    forall a: nat, u: nat {:trigger h.live[a], SameUnit(h, h', u)} ::
      a in h.live && a in h'.live && a <= u < a + h.live[a] ==> SameUnit(h, h', u)
  }

  lemma TakeWrites(h: Heap, prev: nat, p: nat, n: nat)
    requires Good(h) && Usable(h, prev, p, n)
    ensures Carved(h, p, n) < |h.mem| && WritesHeaders(h, Take(h, prev, p, n), Carved(h, p, n))
  {
    hide Linked, Partition, Blocks;
    CarvedInside(h, prev, p, n);
  }

  lemma FreeWrites(h: Heap, p: nat, b: nat)
    requires Good(h) && b in h.live && p < |h.mem| && Fits(h, p, b)
    ensures WritesHeaders(h, FreeSpec(h, p, b), b) && FreeSpec(h, p, b).frees <= h.frees + {b}
  {
    hide Linked, Partition;
    FitsFree(h, p, b);
    InsertGood(h, p, b);
    var h1 := Insert(h, p, b);
    if Joinable(h1, b) { JoinGood(h1, b); }
  }

  /** Nobody holds the header of a free block, nor one that lies within a block of another. */
  lemma HeldIsKept(h: Heap, h': Heap, b: nat)
    requires Good(h) && WritesHeaders(h, h', b) && (b == BASE || b !in h'.live || b !in h.live)
    requires b in h.owner ==> h.owner[b] == b || h.owner[b] in h.frees
    ensures KeepsHeld(h, h')
  {
    hide Linked;
    assert b in h.live ==> In(h, b, b);
    forall a: nat, u: nat | a in h.live && a in h'.live && a <= u < a + h.live[a]
      ensures SameUnit(h, h', u)
    {
      HeldUnit(h, a, u);
    }
  }

  lemma HeldUnit(h: Heap, a: nat, u: nat)
    requires Good(h) && a in h.live && a <= u < a + h.live[a]
    ensures u < |h.mem| && u !in h.frees && u != BASE && Owns(h, a, u) && a !in h.frees
  {
    hide Linked;
    assert In(h, a, u);
    assert Owns(h, a, u);
    if a != u { assert !In(h, u, u); }
  }

  /** malloc leaves every block that someone holds alone, to the last unit. */
  lemma TakeKeepsHeld(h: Heap, prev: nat, p: nat, n: nat)
    requires Good(h) && Tight(h) && Usable(h, prev, p, n)
    ensures Carved(h, p, n) < |h.mem| && KeepsHeld(h, Take(h, prev, p, n))
  {
    hide Linked, Tight, Take;
    TakeKeeps(h, prev, p, n);
    TakeWrites(h, prev, p, n);
    assert IsBlock(h, p) && In(h, p, Carved(h, p, n)) by { CarvedInside(h, prev, p, n); }
    assert Owns(h, p, Carved(h, p, n));
    HeldIsKept(h, Take(h, prev, p, n), Carved(h, p, n));
  }

  /** So does free. */
  lemma FreeKeepsHeld(h: Heap, p: nat, b: nat)
    requires Good(h) && Tight(h) && b in h.live && p < |h.mem| && Fits(h, p, b)
    ensures KeepsHeld(h, FreeSpec(h, p, b))
  {
    hide Linked, Tight, FreeSpec;
    FreeKeeps(h, p, b);
    FreeWrites(h, p, b);
    assert In(h, b, b);
    assert Owns(h, b, b);
    HeldIsKept(h, FreeSpec(h, p, b), b);
  }

  lemma WritesTrans(h0: Heap, h1: Heap, h2: Heap, b: nat)
    requires WritesHeaders(h0, h1, BASE) && WritesHeaders(h1, h2, b)
    requires forall f :: f in h1.frees ==> f in h0.frees || f == BASE || f >= |h0.mem|
    ensures WritesHeaders(h0, h2, b)
  {
    forall u: nat | u < |h0.mem| && u !in h0.frees && u != BASE && u != b
      ensures h2.mem[u] == h0.mem[u]
    {
      assert h1.mem[u] == h0.mem[u];
    }
  }

  // ----- sbrk -----

  /** morecore's new block, `gap` units above the old break, before it is freed. */
  function Grow(h: Heap, gap: nat, nu: nat): Heap {
    var b := |h.mem| + gap;
    var m := h.mem + seq(gap + nu, _ => Header(0, 0));
    Heap(if nu > 0 then m[b := Header(0, nu)] else m, h.frees, h.live[b := nu],
         map u | u in h.owner.Keys + Span(b, nu) :: if u in h.owner then h.owner[u] else b)
  }

  predicate Within(u: nat, b: nat, nu: nat) { b <= u < b + nu }

  function Span(b: nat, nu: nat): set<nat> { set u: nat | b <= u < b + nu && Within(u, b, nu) }

  lemma GrowCircle(h: Heap, gap: nat, nu: nat)
    requires Good(h) && Tight(h) && nu >= 1
    ensures Circle(Grow(h, gap, nu)) && Tight(Grow(h, gap, nu))
  {
    hide Linked, Partition;
    var h' := Grow(h, gap, nu);
    forall a | a in h'.frees
      ensures Linked(h', a) && !Touches(h', a)
    {
      GrowLinked(h, gap, nu, a);
      assert !Touches(h, a);
    }
  }

  lemma GrowShape(h: Heap, gap: nat, nu: nat)
    requires nu >= 1
    ensures var h', b := Grow(h, gap, nu), |h.mem| + gap;
            && |h'.mem| == b + nu && h'.mem[b] == Header(0, nu)
               && (forall a :: 0 <= a < |h.mem| ==> h'.mem[a] == h.mem[a])
            && h'.frees == h.frees && h'.live == h.live[b := nu] && h'.owner.Keys == h.owner.Keys + Span(b, nu)
            && (forall u :: u in h.owner ==> h'.owner[u] == h.owner[u])
            && (forall u :: u in h'.owner && u !in h.owner ==> h'.owner[u] == b)
  {
  }

  lemma GrowAtoms(h: Heap, gap: nat, nu: nat, a: nat, u: nat)
    requires Good(h) && nu >= 1
    ensures var h', b := Grow(h, gap, nu), |h.mem| + gap;
            && (In(h', a, u) <==> In(h, a, u) || (a == b && Within(u, b, nu)))
            && (Owns(h', a, u) <==> Owns(h, a, u) || (a == b && Within(u, b, nu)))
  {
    hide Linked, Partition, Grow;
    GrowShape(h, gap, nu);
  }

  lemma GrowKeeps(h: Heap, gap: nat, nu: nat)
    requires Good(h) && Tight(h) && nu >= 1
    ensures var h', b := Grow(h, gap, nu), |h.mem| + gap;
            && Good(h') && Tight(h') && h'.live == h.live[b := nu] && b !in h.live
            && h'.owner.Keys == h.owner.Keys + Span(b, nu) && h'.frees == h.frees
  {
    hide Linked, Touches, Grow;
    GrowCircle(h, gap, nu);
    GrowShape(h, gap, nu);
    var h' := Grow(h, gap, nu);
    hide In, Owns;
    forall a: nat, u: nat
      ensures In(h', a, u) <==> Owns(h', a, u)
    {
      GrowAtoms(h, gap, nu, a, u);
      assert In(h, a, u) <==> Owns(h, a, u);
    }
  }

  lemma GrowLinked(h: Heap, gap: nat, nu: nat, a: nat)
    requires Good(h) && nu >= 1 && a in h.frees
    ensures Linked(Grow(h, gap, nu), a)
  {
    assert Linked(h, a);
  }

  // ----- the free list is determined by the free memory -----

  /** Unit `u` is free. */
  predicate FreeUnit(h: Heap, u: nat) { u in h.owner && h.owner[u] in h.frees }

  /** A free block starts exactly where free memory starts. */
  lemma StartsOfFreeMemory(h: Heap, a: nat)
    requires Good(h) && Tight(h)
    ensures a in h.frees && a != BASE <==> FreeUnit(h, a) && 0 < a && !FreeUnit(h, a - 1)
  {
    hide Linked;
    assert a in h.frees && a != BASE ==> In(h, a, a);
    assert a in h.owner ==> Owns(h, h.owner[a], a);
    if 0 < a && a in h.owner && h.owner[a] < a {
      assert In(h, h.owner[a], a - 1);
    }
    if 0 < a && a - 1 in h.owner {
      var c := h.owner[a - 1];
      assert Owns(h, c, a - 1);
      assert c in h.frees ==> !Touches(h, c);
      assert c < |h.mem|;
      if a < c + Size(h, c) { assert In(h, c, a); }
    }
  }

  /** A free block ends exactly where free memory ends. */
  lemma EndsOfFreeMemory(h: Heap, a: nat, u: nat)
    requires Good(h) && Tight(h) && a in h.frees && a != BASE && a <= u <= a + Size(h, a)
    ensures FreeUnit(h, u) <==> u < a + Size(h, a)
  {
    hide Linked;
    assert In(h, a, a) && In(h, a, a + Size(h, a) - 1) && !Touches(h, a);
    assert u < a + Size(h, a) ==> In(h, a, u);
    assert u in h.owner ==> Owns(h, h.owner[u], u);
    assert u in h.owner && h.owner[u] < u ==> In(h, h.owner[u], u - 1);
  }

  lemma SameSize(h1: Heap, h2: Heap, a: nat)
    requires Good(h1) && Tight(h1) && Good(h2) && Tight(h2)
    requires forall u :: FreeUnit(h1, u) <==> FreeUnit(h2, u)
    requires a in h1.frees && a in h2.frees
    ensures Size(h1, a) <= Size(h2, a)
  {
    hide Linked;
    if a != BASE && Size(h1, a) > Size(h2, a) {
      EndsOfFreeMemory(h1, a, a + Size(h2, a));
      EndsOfFreeMemory(h2, a, a + Size(h2, a));
    }
  }

  lemma SamePtr(h1: Heap, h2: Heap, a: nat)
    requires Circle(h1) && Circle(h2) && h1.frees == h2.frees && a in h1.frees
    ensures Ptr(h1, a) == Ptr(h2, a)
  {
    assert Linked(h1, a) && Linked(h2, a);
  }

  /** Whatever sequence of calls led here, which memory is free fixes the whole free list:
      its blocks, their sizes and their order. */
  lemma FreeListIsCanonical(h1: Heap, h2: Heap)
    requires Good(h1) && Tight(h1) && Good(h2) && Tight(h2)
    requires forall u :: FreeUnit(h1, u) <==> FreeUnit(h2, u)
    ensures h1.frees == h2.frees
    ensures forall a :: a in h1.frees ==> h1.mem[a] == h2.mem[a]
  {
    hide Linked, Partition, Blocks, Tight, Touches, FreeUnit;
    forall a: nat
      ensures a in h1.frees <==> a in h2.frees
    {
      StartsOfFreeMemory(h1, a);
      StartsOfFreeMemory(h2, a);
    }
    forall a | a in h1.frees
      ensures h1.mem[a] == h2.mem[a]
    {
      SameSize(h1, h2, a);
      SameSize(h2, h1, a);
      SamePtr(h1, h2, a);
    }
  }

  lemma TakeFreeUnits(h: Heap, prev: nat, p: nat, n: nat, u: nat)
    requires Good(h) && Tight(h) && Usable(h, prev, p, n)
    ensures var q := Carved(h, p, n);
            && q < |h.mem| && (FreeUnit(Take(h, prev, p, n), u) <==> FreeUnit(h, u) && !(q <= u < q + n))
            && (q <= u < q + n ==> FreeUnit(h, u))
  {
    hide Linked, Touches;
    TakeKeeps(h, prev, p, n);
    CarvedInside(h, prev, p, n);
    var h', q := Take(h, prev, p, n), Carved(h, p, n);
    if q <= u < q + n { assert In(h, p, u) && In(h', q, u); }
    if u in h.owner { assert Owns(h, h.owner[u], u) && Owns(h', h'.owner[u], u); }
  }

  lemma FreeFreeUnits(h: Heap, p: nat, b: nat, u: nat)
    requires Good(h) && Tight(h) && b in h.live && p < |h.mem| && Fits(h, p, b)
    ensures FreeUnit(FreeSpec(h, p, b), u) <==> FreeUnit(h, u) || In(h, b, u)
  {
    hide Linked, Touches;
    FreeKeeps(h, p, b);
    var h' := FreeSpec(h, p, b);
    if u in h.owner {
      assert Owns(h, h.owner[u], u) && Owns(h', h'.owner[u], u);
      assert h.owner[u] in h.live && h.owner[u] != b ==> In(h', h.owner[u], u);
      assert h'.owner[u] in h'.live ==> In(h, h'.owner[u], u);
    }
    if In(h, b, u) { assert Owns(h, b, u); }
  }

  /** free undoes malloc: the free list comes back exactly, whatever splitting, unlinking
      and coalescing happened on the way. */
  lemma FreeUndoesMalloc(h: Heap, prev: nat, p: nat, n: nat, pred: nat)
    requires Good(h) && Tight(h) && Usable(h, prev, p, n)
    requires var q := Carved(h, p, n);
             q < |h.mem| && pred < |h.mem| && Fits(Take(h, prev, p, n), pred, q)
    ensures var q, h1 := Carved(h, p, n), Take(h, prev, p, n);
            && Good(h1) && q in h1.live
            && var h2 := FreeSpec(h1, pred, q);
               && h2.frees == h.frees && h2.live == h.live
               && forall a :: a in h.frees ==> a < |h2.mem| && h2.mem[a] == h.mem[a]
  {
    hide Linked, Touches, Partition, FreeUnit, FreeSpec;
    TakeKeeps(h, prev, p, n);
    var q, h1 := Carved(h, p, n), Take(h, prev, p, n);
    FreeKeeps(h1, pred, q);
    var h2 := FreeSpec(h1, pred, q);
    forall u: nat
      ensures FreeUnit(h2, u) <==> FreeUnit(h, u)
    {
      TakeFreeUnits(h, prev, p, n, u);
      FreeFreeUnits(h1, pred, q, u);
    }
    FreeListIsCanonical(h2, h);
  }
}
