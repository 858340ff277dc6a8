/** umalloc.c: malloc, free and morecore walking the circle of free blocks in place. */
module Umalloc {
  import opened Common
  import opened HeapModel

  const UNIT: nat := 16     // sizeof(Header)
  const CORE: nat := 4096   // the least morecore asks for, in units

  /** What sbrk answers: refusal, or a region `gap` units above the old break (the program
      may have called sbrk itself in between). */
  datatype Sbrk = Refused | Granted(gap: nat)

  /** Units malloc needs for `nbytes`: the header and the payload, rounded up. */
  function Units(nbytes: nat): nat { (nbytes + UNIT - 1) / UNIT + 1 }

  class Allocator {
    var mem: seq<Header>   // memory up to the break
    var freep: nat
    ghost var frees: set<nat>
    ghost var live: map<nat, nat>
    ghost var owner: map<nat, nat>

    ghost function Now(): Heap
      reads this
    {
      Heap(mem, frees, live, owner)
    }

    ghost predicate Valid()
      reads this
    {
      if freep == NULL then BASE < |mem| && live == map[] && owner == map[]
      else Good(Now()) && Tight(Now()) && freep in frees
    }

    /** A program just loaded: `base` exists, nothing has been asked of sbrk. */
    constructor (brk: nat)
      requires BASE < brk
      ensures Valid() && live == map[] && owner == map[] && |mem| == brk
    {
      mem := seq(brk, _ => Header(0, 0));
      freep := NULL;
      frees, live, owner := {}, map[], map[];
    }

    /** The search loop of free(): the free block after which `bp` belongs. */
    method Place(bp: nat) returns (p: nat)
      requires Valid() && bp in live
      ensures p in frees && Fits(Now(), p, bp)
    {
      hide Linked, Partition, Tight;
      p := freep;
      NextFacts(Now(), p);
      while !(bp > p && bp < mem[p].ptr)
        invariant p in frees
        decreases bp < p, Above(frees, p)
      {
        NextFacts(Now(), p);
        if p >= mem[p].ptr && (bp > p || bp < mem[p].ptr) {
          break;
        }
        ghost var q := p;
        p := mem[p].ptr;
        AboveShrinks(frees, q, p);
      }
    }

    /** free(): finds the place of the block, links it in, and joins it with its neighbours. */
    method Free(ap: nat)
      requires Valid() && ap > 0 && ap - 1 in live
      modifies this
      ensures Valid() && live == old(live) - {ap - 1} && owner.Keys == old(owner.Keys)
      ensures freep != NULL && |mem| == |old(mem)|
      ensures freep < |old(mem)| && Fits(old(Now()), freep, ap - 1) && Now() == FreeSpec(old(Now()), freep, ap - 1)
      ensures WritesHeaders(old(Now()), Now(), ap - 1) && KeepsHeld(old(Now()), Now())
    {
      hide Linked, Partition, Tight, FreeSpec, WritesHeaders, KeepsHeld;
      var bp := ap - 1;
      var p := Place(bp);
      ghost var h := Now();
      ghost var h' := FreeSpec(h, p, bp);
      FreeKeeps(h, p, bp);
      FreeWrites(h, p, bp);
      FreeKeepsHeld(h, p, bp);
      FreeCode(h, p, bp);
      NextFacts(h, p);
      if bp + mem[bp].size == mem[p].ptr {
        mem := mem[bp := Header(mem[mem[p].ptr].ptr, mem[bp].size + mem[mem[p].ptr].size)];
      } else {
        mem := mem[bp := Header(mem[p].ptr, mem[bp].size)];
      }
      if p + mem[p].size == bp {
        mem := mem[p := Header(mem[bp].ptr, mem[p].size + mem[bp].size)];
      } else {
        mem := mem[p := Header(bp, mem[p].size)];
      }
      freep := p;
      frees, live, owner := h'.frees, h'.live, h'.owner;
    }

    /** morecore(): asks sbrk for at least CORE units and frees what it gets.  sbrk takes an int;
        if the number of bytes does not fit, it is asked for `asked` bytes instead.  If it does not
        refuse those, morecore goes on to use memory it has not got, which is `wild`: there the
        model stops. */
    method Morecore(nunits: nat, answer: Sbrk) returns (r: nat, asked: int, wild: bool)
      requires Valid() && freep != NULL && nunits >= 1
      modifies this
      ensures Valid() && freep != NULL && live == old(live) && asked == Asked(nunits)
      ensures wild <==> answer.Granted? && !AsksRight(nunits)
      ensures answer.Refused? || wild ==> r == NULL && Now() == old(Now()) && freep == old(freep)
      ensures answer.Granted? && AsksRight(nunits) ==>
                && r == freep && HasFit(Now(), nunits)
                && Grown(old(Now()), Now(), |old(mem)| + answer.gap, CoreUnits(nunits))
      ensures WritesHeaders(old(Now()), Now(), BASE) && KeepsHeld(old(Now()), Now())
    {
      hide Linked, Partition, Tight, FreeSpec, FreeUnit, Touches, Grown, HasFit, Grow, Circle, Blocks;
      hide WritesHeaders, KeepsHeld;
      var nu := if nunits < CORE then CORE else nunits;
      asked := Int32(nu * UNIT);
      wild := answer.Granted? && asked != nu * UNIT;
      ghost var h := Now();
      NothingWritten(h);
      if answer.Refused? || wild {
        return NULL, asked, wild;
      }
      var hp := Region(answer.gap, nu);
      Free(hp + 1);
      r := freep;
      MoreCoreFacts(h, answer.gap, nu, freep, nunits);
    }

    /** The break moves; the new region becomes one block with its header filled in. */
    method Region(gap: nat, nu: nat) returns (hp: nat)
      requires Valid() && freep != NULL && nu >= 1
      modifies this
      ensures Valid() && freep == old(freep) && hp == |old(mem)| + gap
      ensures Now() == Grow(old(Now()), gap, nu) && Good(Now()) && Tight(Now()) && hp in live
      ensures live == old(live)[hp := nu] && hp !in old(live)
    {
      hide Linked, Partition, Tight, FreeUnit, Touches;
      ghost var g := Grow(Now(), gap, nu);
      GrowKeeps(Now(), gap, nu);
      hp := |mem| + gap;
      mem := mem + seq(gap + nu, _ => Header(0, 0));
      mem := mem[hp := Header(0, nu)];
      frees, live, owner := g.frees, g.live, g.owner;
    }

    /** malloc().  `answer` is what sbrk would say; it is asked at most once, and only when
        no free block is large enough.  `asked` is what it is asked for, 0 if it is not. */
    method Malloc(nbytes: nat, answer: Sbrk) returns (r: nat, asked: int, wild: bool)
      requires Valid() && nbytes < UINT
      modifies this
      ensures Valid()
      ensures var n := Units(nbytes); var fit := old(freep) != NULL && HasFit(old(Now()), n);
              && asked == (if fit then 0 else Asked(n))
              && (wild <==> !fit && answer.Granted? && !AsksRight(n))
              && (r == NULL <==> !fit && (answer.Refused? || wild))
              && owner.Keys == if fit || r == NULL then old(owner).Keys
                               else old(owner).Keys + Span(|old(mem)| + answer.gap, CoreUnits(n))
      ensures if r == NULL then live == old(live) else Handed(old(Now()), Now(), r - 1, Units(nbytes))
      ensures old(freep) != NULL && HasFit(old(Now()), Units(nbytes)) ==>
                FirstFit(old(Now()), old(freep), Now(), freep, Units(nbytes), r)
      // nothing else is written: neither what others hold nor memory that is not malloc's
      ensures WritesHeaders(old(Now()), Now(), if r == NULL then BASE else r - 1) && KeepsHeld(old(Now()), Now())
    {
      hide Linked, Partition, Tight, FreeUnit, Touches, HasFit, FirstFit, WritesHeaders, KeepsHeld;
      ghost var h := Now();
      if freep == NULL {
        InitBase();
      }
      ghost var h0 := Now();
      assert forall u: nat :: FreeUnit(h0, u) ==> FreeUnit(h, u) by { NoUnits(h, h0); }
      r, asked, wild := Search(Units(nbytes), answer);
      AfterInit(h, h0, Now(), if r == NULL then BASE else r - 1);
    }

    /** The search loop of malloc(), starting after freep and going round at most twice. */
    method Search(nunits: nat, answer: Sbrk) returns (r: nat, asked: int, wild: bool)
      requires Valid() && freep != NULL && nunits >= 1
      modifies this
      ensures Valid() && asked == (if HasFit(old(Now()), nunits) then 0 else Asked(nunits))
      ensures wild <==> !HasFit(old(Now()), nunits) && answer.Granted? && !AsksRight(nunits)
      ensures r == NULL <==> !HasFit(old(Now()), nunits) && (answer.Refused? || wild)
      ensures owner.Keys == if HasFit(old(Now()), nunits) || r == NULL then old(owner).Keys
                            else old(owner).Keys + Span(|old(mem)| + answer.gap, CoreUnits(nunits))
      ensures if r == NULL then live == old(live) else Handed(old(Now()), Now(), r - 1, nunits)
      ensures HasFit(old(Now()), nunits) ==> FirstFit(old(Now()), old(freep), Now(), freep, nunits, r)
      ensures WritesHeaders(old(Now()), Now(), if r == NULL then BASE else r - 1) && KeepsHeld(old(Now()), Now())
    {
      hide Linked, Partition, Tight, FreeUnit, Touches, Take, Blocks, Circle, Passed, HasFit, Span, WritesHeaders,
           KeepsHeld;
      var prevp := freep;
      ghost var h0, grown := Now(), false;
      NextFacts(h0, prevp);
      NothingWritten(h0);
      var p := mem[prevp].ptr;
      PassedStart(h0, freep, nunits);
      asked, wild := 0, false;
      while true
        invariant Valid() && freep != NULL && prevp in frees && prevp < |mem| && p == mem[prevp].ptr && p in frees
        invariant asked == (if grown then Asked(nunits) else 0) && (grown ==> AsksRight(nunits)) && !wild
        invariant if grown then answer.Granted? && live == h0.live
                  && Grown(h0, Now(), |h0.mem| + answer.gap, CoreUnits(nunits))
                  else Now() == h0
        invariant grown ==> HasFit(Now(), nunits) && !HasFit(h0, nunits)
        invariant !grown ==> freep == old(freep)
        invariant Passed(Now(), freep, p, nunits)
        invariant WritesHeaders(h0, Now(), BASE) && KeepsHeld(h0, Now())
        decreases !grown, freep < p, Above(frees, p)
      {
        NextFacts(Now(), p);
        if mem[p].size >= nunits {
          FitFound(Now(), p, nunits);
          ghost var h1 := Now();
          r := Carve(prevp, p, nunits);
          HandedKept(h0, h1, Now(), r - 1, nunits);
          return;
        }
        if p == freep {
          PassedAll(Now(), p, nunits);
          assert !grown;
          p, asked, wild := Morecore(nunits, answer);
          if p == NULL {
            return NULL, asked, wild;
          }
          grown := true;
          PassedStart(Now(), p, nunits);
        } else {
          PassedStep(Now(), freep, p, nunits);
        }
        ghost var q := p;
        NextFacts(Now(), p);
        prevp := p;
        p := mem[p].ptr;
        AboveShrinks(frees, q, p);
      }
    }

    method InitBase()
      requires Valid() && freep == NULL
      modifies this
      ensures Valid() && freep == BASE && live == old(live) && owner == old(owner) && |mem| == |old(mem)|
      ensures forall n :: n >= 1 ==> !HasFit(Now(), n)
      ensures WritesHeaders(old(Now()), Now(), BASE) && frees == {BASE}
    {
      mem := mem[BASE := Header(BASE, 0)];
      freep := BASE;
      frees := {BASE};
      assert Linked(Now(), BASE);
    }

    /** Taking the block found: unlink it or cut off its upper end. */
    method Carve(prevp: nat, p: nat, nunits: nat) returns (r: nat)
      requires Valid() && freep != NULL && Usable(Now(), prevp, p, nunits)
      modifies this
      ensures Valid() && freep == prevp && r > 0
      ensures Carved(old(Now()), p, nunits) < |old(mem)| == |mem| && Now() == Take(old(Now()), prevp, p, nunits)
      ensures r - 1 == Carved(old(Now()), p, nunits) && r - 1 !in old(live) && live == old(live)[r - 1 := nunits]
      ensures owner.Keys == old(owner).Keys
      ensures forall u: nat :: r - 1 <= u < r - 1 + nunits ==> FreeUnit(old(Now()), u)
      ensures WritesHeaders(old(Now()), Now(), r - 1)
    {
      hide Linked, Partition, Tight, FreeUnit, Touches, WritesHeaders;
      ghost var h := Now();
      TakeKeeps(h, prevp, p, nunits);
      CarvedInside(h, prevp, p, nunits);
      TakeWrites(h, prevp, p, nunits);
      ghost var h' := Take(h, prevp, p, nunits);
      forall u: nat | Carved(h, p, nunits) <= u < Carved(h, p, nunits) + nunits
        ensures FreeUnit(h, u)
      {
        TakeFreeUnits(h, prevp, p, nunits, u);
      }
      var q := p;
      if mem[p].size == nunits {
        mem := mem[prevp := Header(mem[p].ptr, mem[prevp].size)];
      } else {
        mem := mem[p := Header(mem[p].ptr, mem[p].size - nunits)];
        q := p + mem[p].size;
        mem := mem[q := Header(mem[q].ptr, nunits)];
      }
      freep := prevp;
      frees, live, owner := h'.frees, h'.live, h'.owner;
      r := q + 1;
    }
  }

  /** The payload of a block of that many units is large enough, and wastes less than one
      unit. */
  lemma UnitsFit(nbytes: nat)
    ensures nbytes <= (Units(nbytes) - 1) * UNIT < nbytes + UNIT
  {
  }

  /** Conversion of a size_t to int. */
  function Int32(v: nat): int { if v % UINT < 0x8000_0000 then v % UINT else v % UINT - UINT }

  /** The argument of sbrk for a request of `nunits` units. */
  function Asked(nunits: nat): int { Int32(CoreUnits(nunits) * UNIT) }

  predicate AsksRight(nunits: nat) { Asked(nunits) == CoreUnits(nunits) * UNIT }

  /** Which requests malloc can meet by asking sbrk: those below two gigabytes, less a little.
      For larger ones it asks for too little or for a negative amount. */
  lemma AsksRightExactly(nbytes: nat)
    requires nbytes < UINT
    ensures AsksRight(Units(nbytes)) <==> nbytes <= 0x7FFF_FFE0
    ensures nbytes > 0x7FFF_FFE0 ==> Asked(Units(nbytes)) <= UNIT
  {
    var n := Units(nbytes);
    assert nbytes <= 0x7FFF_FFE0 <==> n * UNIT < 0x8000_0000;
    if nbytes > 0x7FFF_FFE0 {
      assert n * UNIT <= UINT + UNIT;
    }
  }

  function CoreUnits(nunits: nat): nat { if nunits < CORE then CORE else nunits }

  /** Block `a` of `n` units has been handed out: no one held it, and its units were free
      memory or came from sbrk just now. */
  ghost predicate Handed(h: Heap, h': Heap, a: nat, n: nat) {
    && a !in h.live && h'.live == h.live[a := n]
    && forall u: nat :: a <= u < a + n ==> FreeUnit(h, u) || u >= |h.mem|
  }

  lemma NoUnits(h: Heap, h0: Heap)
    requires h0 == h || h0.owner == map[]
    ensures forall u: nat :: FreeUnit(h0, u) ==> FreeUnit(h, u)
  {
  }

  /** Some free block is large enough. */
  ghost predicate HasFit(h: Heap, n: nat) { exists a :: a in h.frees && a < |h.mem| && h.mem[a].size >= n }

  /** Blocks the search of malloc has passed, going round from the one after `from`. */
  predicate Visited(from: nat, p: nat, f: nat) {
    if from < p then from < f < p else from < f || f < p
  }

  ghost predicate Passed(h: Heap, from: nat, p: nat, n: nat) {
    forall f :: f in h.frees && f < |h.mem| && Visited(from, p, f) ==> h.mem[f].size < n
  }

  /** `r` comes from the first free block that is large enough, going round from the one after
      `from`: the whole block, or its upper end; `prev` is the free block before it. */
  ghost predicate FirstFit(h: Heap, from: nat, h': Heap, prev: nat, n: nat, r: nat) {
    && Circle(h) && prev in h.frees
    && var p := Ptr(h, prev);
       && Usable(h, prev, p, n) && Passed(h, from, p, n) && Carved(h, p, n) < |h.mem|
       && h' == Take(h, prev, p, n) && r == Carved(h, p, n) + 1
  }

  lemma PassedStart(h: Heap, from: nat, n: nat)
    requires Good(h) && from in h.frees
    ensures from < |h.mem| && Passed(h, from, Ptr(h, from), n)
  {
    NextFacts(h, from);
  }

  lemma PassedStep(h: Heap, from: nat, p: nat, n: nat)
    requires Good(h) && from in h.frees && p in h.frees && p != from && Passed(h, from, p, n)
    requires p < |h.mem| && h.mem[p].size < n
    ensures Passed(h, from, Ptr(h, p), n)
  {
    NextFacts(h, p);
  }

  lemma PassedAll(h: Heap, p: nat, n: nat)
    requires Good(h) && p in h.frees && Passed(h, p, p, n) && p < |h.mem| && h.mem[p].size < n
    ensures !HasFit(h, n)
  {
  }

  lemma FitFound(h: Heap, p: nat, n: nat)
    requires p in h.frees && p < |h.mem| && h.mem[p].size >= n
    ensures HasFit(h, n)
  {
  }

  /** `nu` fresh units from `b` on have been added to the free memory of `h`. */
  ghost predicate Grown(h: Heap, h': Heap, b: nat, nu: nat) {
    && (forall f :: f in h'.frees ==> f in h.frees || f >= |h.mem|)
    && h'.owner.Keys == h.owner.Keys + Span(b, nu) && b >= |h.mem|
    && forall u: nat :: FreeUnit(h', u) ==> FreeUnit(h, u) || u >= |h.mem|
  }

  lemma GrowUnits(h: Heap, gap: nat, nu: nat, u: nat)
    requires Good(h) && Tight(h) && nu >= 1
    ensures var g, b := Grow(h, gap, nu), |h.mem| + gap;
            (FreeUnit(g, u) <==> FreeUnit(h, u)) && (In(g, b, u) <==> b <= u < b + nu)
  {
    hide Linked, Touches;
    GrowKeeps(h, gap, nu);
    if u in h.owner { assert Owns(h, h.owner[u], u); }
  }

  /** A run of free units lies in one free block. */
  lemma RunInOneBlock(h: Heap, b: nat, nu: nat)
    requires Good(h) && Tight(h) && nu >= 1 && forall u: nat :: b <= u < b + nu ==> FreeUnit(h, u)
    ensures HasFit(h, nu)
  {
    hide Linked, Touches;
    assert FreeUnit(h, b);
    var a := h.owner[b];
    assert Owns(h, a, b);
    if a + Size(h, a) < b + nu {
      EndsOfFreeMemory(h, a, a + Size(h, a));
    }
  }

  lemma NothingWritten(h: Heap)
    requires Good(h)
    ensures WritesHeaders(h, h, BASE) && KeepsHeld(h, h)
  {
    hide Linked, Partition;
    HeldIsKept(h, h, BASE);
  }

  /** The block `a` taken from a heap that may have grown. */
  lemma HandedKept(h: Heap, h1: Heap, h2: Heap, a: nat, n: nat)
    requires Good(h) && WritesHeaders(h, h1, BASE) && WritesHeaders(h1, h2, a) && Handed(h, h2, a, n) && n >= 1
    requires forall f :: f in h1.frees ==> f in h.frees || f >= |h.mem|
    ensures WritesHeaders(h, h2, a) && KeepsHeld(h, h2)
  {
    hide Linked, Partition, KeepsHeld, WritesHeaders;
    WritesTrans(h, h1, h2, a);
    assert FreeUnit(h, a) || a >= |h.mem|;
    HeldIsKept(h, h2, a);
  }

  /** The same from before the first call on. */
  lemma AfterInit(h: Heap, h0: Heap, h2: Heap, b: nat)
    requires WritesHeaders(h0, h2, b) && KeepsHeld(h0, h2)
    requires h0 == h || (h.live == map[] && h0.frees == {BASE} && WritesHeaders(h, h0, BASE))
    ensures WritesHeaders(h, h2, b) && KeepsHeld(h, h2)
  {
    if h0 != h { WritesTrans(h, h0, h2, b); }
  }

  lemma GrowWrites(h: Heap, g: Heap, h': Heap, gap: nat, nu: nat)
    requires Good(h) && nu >= 1 && g == Grow(h, gap, nu) && WritesHeaders(g, h', |h.mem| + gap)
    ensures WritesHeaders(h, h', BASE) && KeepsHeld(h, h')
  {
    hide Linked, Partition;
    GrowShape(h, gap, nu);
    HeldIsKept(h, h', BASE);
  }

  lemma MoreCoreFacts(h: Heap, gap: nat, nu: nat, p: nat, n: nat)
    requires Good(h) && Tight(h) && nu >= 1 && n <= nu
    requires var g := Grow(h, gap, nu);
             Good(g) && Tight(g) && |h.mem| + gap in g.live && p < |g.mem| && Fits(g, p, |h.mem| + gap)
    ensures var h' := FreeSpec(Grow(h, gap, nu), p, |h.mem| + gap);
            && Grown(h, h', |h.mem| + gap, nu) && HasFit(h', n)
            && WritesHeaders(h, h', BASE) && KeepsHeld(h, h')
  {
    hide Linked, Touches, FreeSpec, FreeUnit, Partition, In;
    var g, b := Grow(h, gap, nu), |h.mem| + gap;
    GrowKeeps(h, gap, nu);
    FreeKeeps(g, p, b);
    FreeWrites(g, p, b);
    GrowWrites(h, g, FreeSpec(g, p, b), gap, nu);
    var h' := FreeSpec(g, p, b);
    forall u: nat
      ensures FreeUnit(h', u) <==> FreeUnit(h, u) || b <= u < b + nu
    {
      FreeFreeUnits(g, p, b, u);
      GrowUnits(h, gap, nu, u);
    }
    RunInOneBlock(h', b, nu);
  }

  ghost function Above(frees: set<nat>, p: nat): set<nat> { set f | f in frees && f > p }

  lemma AboveShrinks(frees: set<nat>, q: nat, p: nat)
    ensures q < p && p in frees ==> Above(frees, p) < Above(frees, q)
  {
    if q < p && p in frees {
      assert p in Above(frees, q) && p !in Above(frees, p);
    }
  }

  /** What free() writes is what linking in and joining write. */
  lemma FreeCode(h: Heap, p: nat, b: nat)
    requires Good(h) && b in h.live && p < |h.mem| && Fits(h, p, b)
    ensures b < |h.mem| && Ptr(h, p) < |h.mem|
    ensures var y := h.mem[p].ptr;
            var m1 := if b + h.mem[b].size == y then h.mem[b := Header(h.mem[y].ptr, h.mem[b].size + h.mem[y].size)]
                      else h.mem[b := Header(y, h.mem[b].size)];
            var m2 := if p + m1[p].size == b then m1[p := Header(m1[b].ptr, m1[p].size + m1[b].size)]
                      else m1[p := Header(b, m1[p].size)];
            FreeSpec(h, p, b).mem == m2
  {
    hide Linked, Partition;
    NextFacts(h, p);
    NextFacts(h, Ptr(h, p));
    InsertGood(h, p, b);
    var h1 := Insert(h, p, b);
    if Joinable(h1, b) {
      JoinFacts(h1, b);
    }
  }

  /** One step round the circle. */
  lemma NextFacts(h: Heap, p: nat)
    requires Good(h) && p in h.frees
    ensures BASE <= p < |h.mem| && Ptr(h, p) in h.frees && Ptr(h, p) < |h.mem|
    ensures Ptr(h, p) == BASE || p < Ptr(h, p)
    ensures forall f :: f in h.frees && p < f ==> p < Ptr(h, p) <= f
  {
    assert Linked(h, p);
  }
}
