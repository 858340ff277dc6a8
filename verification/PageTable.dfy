/** Sv39 page tables as values: physical pages of 512 words, and the three-level trees that
    live in them. */
module PageTable {

  const PGSIZE: nat := 4096
  const MAXVA: nat := 0x40_0000_0000      // 1 << 38
  const MAXPAGES: nat := 0x400_0000       // MAXVA / PGSIZE

  type Page = s: seq<nat> | |s| == 512 witness seq(512, _ => 0)

  /** Physical memory by page number. */
  type Ram = map<nat, Page>

  // ----- page table entries (riscv.h) -----

  const PTE_V: nat := 1
  function ZeroPage(): Page { seq(512, _ => 0) }

  predicate Present(pte: nat) { pte % 2 == 1 }
  function Flags(pte: nat): nat { pte % 1024 }
  function Ppn(pte: nat): nat { pte / 1024 }   // PTE2PA(pte) / PGSIZE

  /** Some of R, W, X is set. */
  predicate Leaf(pte: nat) { (pte / 2) % 8 != 0 }

  /** PA2PTE(pa) | perm | PTE_V for the page-aligned pa = ppn * PGSIZE and ten flag bits. */
  function MakePte(ppn: nat, perm: nat): nat
    requires perm < 1024
  {
    ppn * 1024 + (if perm % 2 == 1 then perm else perm + 1)
  }

  lemma SplitPte(ppn: nat, f: nat)
    requires f < 1024
    ensures (ppn * 1024 + f) / 1024 == ppn && (ppn * 1024 + f) % 1024 == f
  {
  }

  lemma PteBits(ppn: nat, f: nat)
    requires f < 1024
    ensures (ppn * 1024 + f) % 2 == f % 2 && (ppn * 1024 + f) / 2 % 8 == f / 2 % 8
  {
    assert (ppn * 1024 + f) / 2 == 8 * (ppn * 64) + f / 2;
  }

  /** PTE2PA undoes PA2PTE, and the flags stay what they were apart from PTE_V. */
  lemma PteRoundTrip(ppn: nat, perm: nat)
    requires perm < 1024
    ensures var pte := MakePte(ppn, perm);
            && Ppn(pte) == ppn && Present(pte)
            && Flags(pte) == (if perm % 2 == 1 then perm else perm + 1)
            && (Leaf(pte) <==> (perm / 2) % 8 != 0)
  {
    var f := if perm % 2 == 1 then perm else perm + 1;
    SplitPte(ppn, f);
    PteBits(ppn, f);
  }

  // ----- indices -----

  /** PX(level, va), for the page number of va. */
  function Index(level: nat, n: nat): nat
    requires level <= 2
  {
    if level == 2 then n / 0x4_0000 % 512 else if level == 1 then n / 512 % 512 else n % 512
  }

  /** PX(level, va) as riscv.h computes it from the address. */
  function PX(level: nat, va: nat): nat
    requires level <= 2
  {
    (if level == 2 then va / 0x4000_0000 else if level == 1 then va / 0x20_0000 else va / 0x1000) % 512
  }

  lemma PXIsIndex(level: nat, va: nat)
    requires level <= 2
    ensures PX(level, va) == Index(level, va / PGSIZE) < 512
  {
    assert va / 0x4000_0000 == va / 0x1000 / 0x4_0000;
    assert va / 0x20_0000 == va / 0x1000 / 512;
  }

  lemma TopIndex(n: nat)
    requires n < MAXPAGES
    ensures Index(2, n) < 256
  {
  }

  /** Below MAXVA the three indices together identify the page. */
  lemma IndicesAreInjective(n: nat, m: nat)
    requires n < MAXPAGES && m < MAXPAGES
    requires Index(2, n) == Index(2, m) && Index(1, n) == Index(1, m) && Index(0, n) == Index(0, m)
    ensures n == m
  {
    IndicesMakePage(n);
    IndicesMakePage(m);
  }

  lemma IndicesMakePage(n: nat)
    requires n < MAXPAGES
    ensures n == Index(2, n) * 0x4_0000 + Index(1, n) * 512 + Index(0, n)
  {
    var q := n / 512;
    assert n / 0x4_0000 == q / 512 < 512;
  }

  // ----- trees -----

  /** Where a page-table page hangs: its level, and the entry that points to it. */
  datatype Node = Node(level: nat, parent: nat, index: nat)

  datatype Tree = Tree(root: nat, owner: map<nat, Node>)

  /** Entry `i` of page-table page `x`: zero, a leaf at the last level, or a pointer. */
  ghost predicate DownOk(ram: Ram, t: Tree, x: nat, i: nat)
    requires x in t.owner && x in ram && i < 512
  {
    var e := ram[x][i];
    if !Present(e) then e == 0
    else if t.owner[x].level == 0 then Leaf(e)
    else Flags(e) == PTE_V && Ppn(e) in t.owner && t.owner[Ppn(e)] == Node(t.owner[x].level - 1, x, i)
  }

  /** Half of the root is used: MAXVA is one bit less than Sv39 allows. */
  function Fanout(t: Tree, x: nat): nat
    requires x in t.owner
  {
    if t.owner[x].level == 2 then 256 else 512
  }

  ghost predicate UpOk(ram: Ram, t: Tree, x: nat)
    requires x in t.owner
  {
    var n := t.owner[x];
    if x == t.root then n.level == 2
    else
      && n.level < 2 && n.parent in t.owner && n.parent in ram && t.owner[n.parent].level == n.level + 1
      && n.index < (if n.level == 1 then 256 else 512)   // below MAXVA
      && Present(ram[n.parent][n.index]) && Ppn(ram[n.parent][n.index]) == x
  }

  ghost predicate Good(ram: Ram, t: Tree) {
    && t.root in t.owner
    && (forall x :: x in t.owner ==> x in ram)
    && (forall x, i: nat {:trigger DownOk(ram, t, x, i)} :: x in t.owner && i < 512 ==> DownOk(ram, t, x, i))
    && (forall x {:trigger UpOk(ram, t, x)} :: x in t.owner ==> UpOk(ram, t, x))
  }

  /** The page-table page of `level` on the way to virtual page `n`, if it exists. */
  ghost function Via(ram: Ram, t: Tree, n: nat, level: nat): (r: (bool, nat))
    requires Good(ram, t) && level <= 2
    ensures r.0 ==> r.1 in t.owner && t.owner[r.1].level == level
    decreases 2 - level
  {
    if level == 2 then
      assert UpOk(ram, t, t.root);
      (true, t.root)
    else
      var up := Via(ram, t, n, level + 1);
      if !up.0 then (false, 0)
      else
        assert DownOk(ram, t, up.1, Index(level + 1, n));
        var e := ram[up.1][Index(level + 1, n)];
        if Present(e) then (true, Ppn(e)) else (false, 0)
  }

  /** The flat map the tree stands for: the entry for virtual page `n`, or 0. */
  ghost function Lookup(ram: Ram, t: Tree, n: nat): nat
    requires Good(ram, t)
  {
    var z := Via(ram, t, n, 0);
    if z.0 then ram[z.1][Index(0, n)] else 0
  }

  lemma ViaUp(ram: Ram, t: Tree, n: nat, level: nat)
    requires Good(ram, t) && level < 2 && Via(ram, t, n, level).0
    ensures var x := Via(ram, t, n, level).1;
            && Via(ram, t, n, level + 1).0
            && t.owner[x] == Node(level, Via(ram, t, n, level + 1).1, Index(level + 1, n))
  {
    assert DownOk(ram, t, Via(ram, t, n, level + 1).1, Index(level + 1, n));
  }

  /** Two virtual pages share a last-level page only if they agree in the upper indices. */
  lemma SlotInjective(ram: Ram, t: Tree, n: nat, m: nat)
    requires Good(ram, t) && n < MAXPAGES && m < MAXPAGES && n != m
    requires Via(ram, t, n, 0).0 && Via(ram, t, m, 0).0
    ensures Via(ram, t, n, 0).1 != Via(ram, t, m, 0).1 || Index(0, n) != Index(0, m)
  {
    ViaUp(ram, t, n, 0);
    ViaUp(ram, t, m, 0);
    ViaUp(ram, t, n, 1);
    ViaUp(ram, t, m, 1);
    if Via(ram, t, n, 0).1 == Via(ram, t, m, 0).1 && Index(0, n) == Index(0, m) {
      IndicesAreInjective(n, m);
    }
  }

  /** A tree depends on nothing but its own pages. */
  lemma {:induction false} SamePages(ram: Ram, ram': Ram, t: Tree, n: nat, level: nat)
    requires Good(ram, t) && level <= 2 && forall x :: x in t.owner ==> x in ram' && ram'[x] == ram[x]
    ensures Good(ram', t) && Via(ram', t, n, level) == Via(ram, t, n, level)
    decreases 2 - level
  {
    TreeFrame(ram, ram', t);
    if level < 2 {
      SamePages(ram, ram', t, n, level + 1);
    }
  }

  lemma TreeFrame(ram: Ram, ram': Ram, t: Tree)
    requires Good(ram, t) && forall x :: x in t.owner ==> x in ram' && ram'[x] == ram[x]
    ensures Good(ram', t)
  {
    forall x, i: nat | x in t.owner && i < 512
      ensures DownOk(ram', t, x, i)
    {
      assert DownOk(ram, t, x, i);
    }
    forall x | x in t.owner
      ensures UpOk(ram', t, x)
    {
      assert UpOk(ram, t, x);
    }
  }

  // ----- the two writes walk and mappages make -----

  function SetEntry(ram: Ram, x: nat, i: nat, e: nat): Ram
    requires x in ram && i < 512
  {
    ram[x := ram[x][i := e]]
  }

  /** A last-level entry is overwritten. */
  lemma SetLeafGood(ram: Ram, t: Tree, x: nat, i: nat, e: nat)
    requires Good(ram, t) && x in t.owner && t.owner[x].level == 0 && i < 512
             && (if Present(e) then Leaf(e) else e == 0)
    ensures Good(SetEntry(ram, x, i, e), t)
  {
    var ram' := SetEntry(ram, x, i, e);
    forall y, k: nat | y in t.owner && k < 512
      ensures DownOk(ram', t, y, k)
    {
      assert DownOk(ram, t, y, k);
    }
    forall y | y in t.owner
      ensures UpOk(ram', t, y)
    {
      assert UpOk(ram, t, y);
    }
  }

  lemma {:induction false} SetLeafVia(ram: Ram, t: Tree, x: nat, i: nat, e: nat, n: nat, level: nat)
    requires Good(ram, t) && x in t.owner && t.owner[x].level == 0 && i < 512 && level <= 2
    requires Good(SetEntry(ram, x, i, e), t)
    ensures Via(SetEntry(ram, x, i, e), t, n, level) == Via(ram, t, n, level)
    decreases 2 - level
  {
    if level < 2 {
      SetLeafVia(ram, t, x, i, e, n, level + 1);
    }
  }

  /** Writing the entry for virtual page `n` changes the flat map at `n` and nowhere else. */
  lemma SetLeaf(ram: Ram, t: Tree, n: nat, e: nat, m: nat)
    requires Good(ram, t) && n < MAXPAGES && m < MAXPAGES && Via(ram, t, n, 0).0
             && (if Present(e) then Leaf(e) else e == 0)
    ensures var ram' := SetEntry(ram, Via(ram, t, n, 0).1, Index(0, n), e);
            && Good(ram', t)
            && Lookup(ram', t, m) == if m == n then e else Lookup(ram, t, m)
  {
    var x, i := Via(ram, t, n, 0).1, Index(0, n);
    SetLeafGood(ram, t, x, i, e);
    SetLeafVia(ram, t, x, i, e, n, 0);
    SetLeafVia(ram, t, x, i, e, m, 0);
    if m != n && Via(ram, t, m, 0).0 {
      SlotInjective(ram, t, n, m);
    }
  }

  /** walk allocates page `y`, zeroes it and hangs it under entry `i` of page `x`. */
  function Grow(ram: Ram, x: nat, i: nat, y: nat): Ram
    requires x in ram && i < 512
  {
    SetEntry(ram[y := ZeroPage()], x, i, MakePte(y, 0))
  }

  function GrowTree(t: Tree, x: nat, i: nat, y: nat): Tree
    requires x in t.owner && t.owner[x].level > 0
  {
    Tree(t.root, t.owner[y := Node(t.owner[x].level - 1, x, i)])
  }

  lemma GrowGood(ram: Ram, t: Tree, x: nat, i: nat, y: nat)
    requires Good(ram, t) && x in t.owner && t.owner[x].level > 0 && i < Fanout(t, x) && y !in t.owner
    requires !Present(ram[x][i])
    ensures Good(Grow(ram, x, i, y), GrowTree(t, x, i, y))
  {
    var ram', t' := Grow(ram, x, i, y), GrowTree(t, x, i, y);
    PteRoundTrip(y, 0);
    assert UpOk(ram, t, x);
    forall z, k: nat | z in t'.owner && k < 512
      ensures DownOk(ram', t', z, k)
    {
      if z != y { assert DownOk(ram, t, z, k); }
    }
    forall z | z in t'.owner
      ensures UpOk(ram', t', z)
    {
      if z != y { assert UpOk(ram, t, z); }
    }
  }

  lemma {:induction false} GrowVia(ram: Ram, t: Tree, x: nat, i: nat, y: nat, n: nat, level: nat)
    requires Good(ram, t) && x in t.owner && t.owner[x].level > 0 && i < Fanout(t, x) && y !in t.owner
    requires !Present(ram[x][i]) && Good(Grow(ram, x, i, y), GrowTree(t, x, i, y)) && level <= 2
    ensures var v, v' := Via(ram, t, n, level), Via(Grow(ram, x, i, y), GrowTree(t, x, i, y), n, level);
            if v.0 then v' == v else v'.0 ==> v'.1 == y
    decreases 2 - level
  {
    PteRoundTrip(y, 0);
    if level < 2 {
      GrowVia(ram, t, x, i, y, n, level + 1);
    }
  }

  /** Growing the tree leaves the flat map alone. */
  lemma GrowLookup(ram: Ram, t: Tree, x: nat, i: nat, y: nat, n: nat)
    requires Good(ram, t) && x in t.owner && t.owner[x].level > 0 && i < Fanout(t, x) && y !in t.owner
    requires !Present(ram[x][i])
    ensures Good(Grow(ram, x, i, y), GrowTree(t, x, i, y))
    ensures Lookup(Grow(ram, x, i, y), GrowTree(t, x, i, y), n) == Lookup(ram, t, n)
  {
    GrowGood(ram, t, x, i, y);
    GrowVia(ram, t, x, i, y, n, 0);
  }

  // ----- subtrees -----

  /** Page `y` lies in the subtree of page `x`. */
  predicate Under(t: Tree, y: nat, x: nat)
    decreases if y in t.owner && t.owner[y].level <= 2 then 2 - t.owner[y].level else 0
  {
    y in t.owner &&
    (y == x ||
     (t.owner[y].level < 2 && t.owner[y].parent in t.owner && t.owner[t.owner[y].parent].level == t.owner[y].level + 1
      && Under(t, t.owner[y].parent, x)))
  }

  /** The entry of `x` through which `y` is reached. */
  function Branch(t: Tree, y: nat, x: nat): nat
    requires Under(t, y, x) && y != x
    decreases 2 - t.owner[y].level
  {
    if t.owner[y].parent == x then t.owner[y].index else Branch(t, t.owner[y].parent, x)
  }

  function Subtree(t: Tree, x: nat): set<nat> { set y | y in t.owner && Under(t, y, x) }

  /** The pages reached through the first `i` entries of `x`. */
  function Branches(t: Tree, x: nat, i: nat): set<nat> {
    set y | y in t.owner && y != x && Under(t, y, x) && Branch(t, y, x) < i
  }

  lemma {:induction false} UnderLevels(ram: Ram, t: Tree, y: nat, x: nat)
    requires Good(ram, t) && Under(t, y, x)
    ensures x in t.owner && t.owner[y].level <= t.owner[x].level <= 2
            && (y != x ==> t.owner[y].level < t.owner[x].level)
    decreases 2 - t.owner[y].level
  {
    assert UpOk(ram, t, y);
    if y != x {
      UnderLevels(ram, t, t.owner[y].parent, x);
    }
  }

  lemma {:induction false} UnderChild(ram: Ram, t: Tree, y: nat, x: nat, c: nat, i: nat)
    requires Good(ram, t) && x in t.owner && c in t.owner && y in t.owner
    requires t.owner[x].level > 0 && t.owner[c] == Node(t.owner[x].level - 1, x, i)
    ensures Under(t, y, c) <==> Under(t, y, x) && y != x && Branch(t, y, x) == i
    decreases 2 - (if t.owner[y].level <= 2 then t.owner[y].level else 2)
  {
    assert UpOk(ram, t, y) && UpOk(ram, t, c);
    if y == c {
      assert UpOk(ram, t, x) && Under(t, x, x);
    } else if y != t.root {
      var p := t.owner[y].parent;
      UnderChild(ram, t, p, x, c, i);
      if p == x {
        if Under(t, p, c) { UnderLevels(ram, t, p, c); }
      }
      if y == x && Under(t, y, c) { UnderLevels(ram, t, y, c); }
    } else {
      if Under(t, y, x) { UnderLevels(ram, t, y, x); }
    }
  }

  /** Every page but the root of a subtree is reached through one of its entries, and the
      entry is present. */
  lemma {:induction false} BranchPresent(ram: Ram, t: Tree, y: nat, x: nat)
    requires Good(ram, t) && Under(t, y, x) && y != x
    ensures x in t.owner && t.owner[x].level > 0 && Branch(t, y, x) < 512 && Present(ram[x][Branch(t, y, x)])
    decreases 2 - t.owner[y].level
  {
    assert UpOk(ram, t, y);
    if t.owner[y].parent != x {
      BranchPresent(ram, t, t.owner[y].parent, x);
    }
  }
}
