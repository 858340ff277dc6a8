/** vm.c and kalloc.c: physical pages on a free list, page tables written in place. */
module Vm {
  import opened Common
  import opened PageTable

  function Pages(s: seq<nat>): set<nat> { set p | p in s }

  /** No tree page is free. */
  ghost predicate Apart(t: Tree, free: seq<nat>) { forall p :: p in t.owner ==> p !in free }

  /** The two trees stand for the same flat map. */
  ghost predicate SameMap(ram: Ram, t: Tree, ram': Ram, t': Tree)
    requires Good(ram, t) && Good(ram', t')
  {
    forall n: nat {:trigger Lookup(ram', t', n)} :: n < MAXPAGES ==> Lookup(ram', t', n) == Lookup(ram, t, n)
  }

  /** Page-table pages that were on the way to a virtual page still are. */
  ghost predicate KeepsPaths(ram: Ram, t: Tree, ram': Ram, t': Tree)
    requires Good(ram, t) && Good(ram', t')
  {
    forall n: nat, l: nat {:trigger Via(ram', t', n, l)} :: l <= 2 && Via(ram, t, n, l).0 ==>
      Via(ram', t', n, l) == Via(ram, t, n, l)
  }

  lemma EvolvedTrans(r0: Ram, f0: seq<nat>, t0: Tree, r1: Ram, f1: seq<nat>, t1: Tree, r2: Ram, f2: seq<nat>, t2: Tree)
    requires Evolved(r0, f0, t0, r1, f1, t1) && Evolved(r1, f1, t1, r2, f2, t2)
    ensures Evolved(r0, f0, t0, r2, f2, t2)
  {
    forall p | p in r0 && p !in f0 && p !in t0.owner
      ensures r2[p] == r0[p]
    {
      assert p !in Pages(f0) + t0.owner.Keys;
      assert p !in Pages(f1) + t1.owner.Keys;
    }
  }

  lemma SameMapTrans(r0: Ram, t0: Tree, r1: Ram, t1: Tree, r2: Ram, t2: Tree)
    requires Good(r0, t0) && Good(r1, t1) && Good(r2, t2) && SameMap(r0, t0, r1, t1) && SameMap(r1, t1, r2, t2)
    ensures SameMap(r0, t0, r2, t2)
  {
    forall n: nat | n < MAXPAGES
      ensures Lookup(r2, t2, n) == Lookup(r0, t0, n)
    {
      assert Lookup(r2, t2, n) == Lookup(r1, t1, n);
    }
  }

  /** Pages only moved from the free list into the tree, and nothing else was written. */
  ghost predicate Evolved(ram: Ram, free: seq<nat>, t: Tree, ram': Ram, free': seq<nat>, t': Tree) {
    && ram'.Keys == ram.Keys && t'.root == t.root
    && Pages(free') + t'.owner.Keys == Pages(free) + t.owner.Keys
    && t.owner.Keys <= t'.owner.Keys
    && forall p :: p in ram && p !in free && p !in t.owner ==> ram'[p] == ram[p]
  }

  /** The address of the k-th free page, or 0 at the end of the list. */
  function RunAt(free: seq<nat>, k: nat): nat { if k < |free| then free[k] * PGSIZE else 0 }

  /** Each free page begins with a struct run that points to the next. */
  ghost predicate Runs(ram: Ram, free: seq<nat>) {
    forall k: nat {:trigger free[k]} :: k < |free| ==> free[k] in ram && ram[free[k]][0] == RunAt(free, k + 1)
  }

  lemma RunsKept(ram: Ram, ram': Ram, free: seq<nat>)
    requires Runs(ram, free) && forall p :: p in free ==> p in ram' && (p in ram ==> ram'[p] == ram[p])
    ensures Runs(ram', free)
  {
  }

  /** What kalloc and kfree leave in a page. */
  function Junk(b: nat): Page { seq(512, _ => b * 0x0101_0101_0101_0101) }

  /** Pages `n` - 1 down to `m`. */
  function Downto(n: nat, m: nat): seq<nat>
    requires m <= n
  {
    if n == m then [] else [n - 1] + Downto(n - 1, m)
  }

  lemma {:induction false} DowntoRange(n: nat, m: nat)
    requires m <= n
    ensures forall x: nat {:trigger x in Downto(n, m)} :: x in Downto(n, m) <==> m <= x < n
    ensures Downto(m, m) == [] && Downto(n + 1, m) == [n] + Downto(n, m)
    decreases n
  {
    if n > m {
      DowntoRange(n - 1, m);
    }
  }

  class Memory {
    var ram: Ram
    var freelist: nat          // kmem.freelist
    ghost var free: seq<nat>   // the pages on it, first page first

    ghost predicate Valid()
      reads this
    {
      && 0 !in ram && Distinct(free) && (forall p :: p in free ==> p in ram)
      && freelist == RunAt(free, 0) && Runs(ram, free)
    }

    /** No page is free yet. */
    constructor (ram: Ram)
      requires 0 !in ram
      ensures Valid() && this.ram == ram && free == []
    {
      this.ram, freelist, free := ram, 0, [];
    }

    /** freerange: every whole page from `start` up to `end` is freed. */
    method FreeRange(start: nat, end: nat)
      requires Valid() && forall p: nat :: PageUp(start) <= p < end / PGSIZE ==> p in ram && p !in free
      modifies this
      ensures Valid() && ram.Keys == old(ram).Keys
      ensures free == (if PageUp(start) <= end / PGSIZE then Downto(end / PGSIZE, PageUp(start)) else []) + old(free)
      ensures forall p :: p in ram && !(PageUp(start) <= p < end / PGSIZE) && p !in old(free) ==> ram[p] == old(ram)[p]
    {
      hide Runs, RunAt, Junk, Distinct, Downto;
      var p := PageUp(start) * PGSIZE;
      ghost var n := PageUp(start);
      DowntoRange(n, n);
      while p + PGSIZE <= end
        invariant PageUp(start) <= n && p == n * PGSIZE && (n <= end / PGSIZE || n == PageUp(start))
        invariant Valid() && ram.Keys == old(ram).Keys && free == Downto(n, PageUp(start)) + old(free)
        invariant forall x :: x in ram && !(PageUp(start) <= x < n) && x !in old(free) ==> ram[x] == old(ram)[x]
        decreases end - p
      {
        DowntoRange(n, PageUp(start));
        Kfree(p / PGSIZE);
        p := p + PGSIZE;
        n := n + 1;
      }
    }

    ghost predicate Holds(t: Tree)
      reads this
    {
      Valid() && Good(ram, t) && Apart(t, free)
    }

    /** kalloc: the first free page, filled with junk. */
    method Kalloc() returns (ok: bool, p: nat)
      requires Valid()
      modifies this
      ensures Valid() && ram.Keys == old(ram).Keys && (ok <==> old(free) != [])
      ensures ok ==> old(free) == [p] + free && p !in free && p in ram && ram[p] == Junk(5)
      ensures ok ==> forall x :: x in ram && x != p ==> ram[x] == old(ram)[x]
      ensures !ok ==> free == old(free) && ram == old(ram)
    {
      if freelist == 0 {
        return false, 0;
      }
      p := freelist / PGSIZE;
      freelist := ram[p][0];
      free := free[1..];
      ram := ram[p := Junk(5)];
      ok := true;
    }

    /** kfree: the page is filled with junk and becomes the first free one. */
    method Kfree(p: nat)
      requires Valid() && p in ram && p !in free
      modifies this
      ensures Valid() && free == [p] + old(free) && ram.Keys == old(ram).Keys
      ensures ram[p] == Junk(1)[0 := old(freelist)] && forall x :: x in ram && x != p ==> ram[x] == old(ram)[x]
    {
      ram := ram[p := Junk(1)];
      ram := ram[p := ram[p][0 := freelist]];
      freelist := p * PGSIZE;
      free := [p] + free;
    }

    /** One level of walk: the page entry `i` of page `x` points to, made on demand. */
    method Descend(x: nat, i: nat, alloc: bool, ghost t: Tree) returns (found: bool, y: nat, ghost t': Tree)
      requires Holds(t) && x in t.owner && t.owner[x].level > 0 && i < Fanout(t, x)
      modifies this
      ensures Holds(t') && Evolved(old(ram), old(free), t, ram, free, t') && SameMap(old(ram), t, ram, t')
      ensures KeepsPaths(old(ram), t, ram, t')
      ensures !alloc ==> t' == t && ram == old(ram) && free == old(free)
      ensures found ==> x in ram && Present(ram[x][i]) && y == Ppn(ram[x][i]) && y in t'.owner
      ensures forall z :: z in t.owner ==> t'.owner[z] == t.owner[z]
      ensures !found ==> t' == t && ram == old(ram) && !Present(ram[x][i]) && (alloc ==> free == old(free) == [])
      ensures |free| + 1 >= |old(free)|
    {
      hide Runs, RunAt, Junk, Lookup, Via, Distinct, SameMap, KeepsPaths, Good, Evolved, Grow, GrowTree, MakePte;
      EntryIs(ram, t, x, i);
      var pte := ram[x][i];
      t' := t;
      StartWalk(ram, free, t);
      if Present(pte) {
        return true, Ppn(pte), t;
      }
      if !alloc {
        return false, 0, t;
      }
      var ok;
      ghost var ram0 := ram;
      ok, y := Kalloc();
      if !ok {
        return false, 0, t;
      }
      assert old(free)[0] == y;
      ghost var ram1 := ram;
      GrowKeeps(ram0, t, x, i, y);
      GrowEvolved(ram0, old(free), t, ram1, free, x, i, y);
      ram := ram[y := ZeroPage()];
      ram := ram[x := ram[x][i := MakePte(y, 0)]];
      t' := GrowTree(t, x, i, y);
      found := true;
    }

    /** walk: the page and the index of the last-level entry for `va`. */
    method Walk(root: nat, va: nat, alloc: bool, ghost t: Tree) returns (found: bool, x: nat, i: nat, ghost t': Tree)
      requires Holds(t) && root == t.root && va < MAXVA
      modifies this
      ensures Holds(t') && Evolved(old(ram), old(free), t, ram, free, t') && SameMap(old(ram), t, ram, t')
      ensures found ==> Via(ram, t', va / PGSIZE, 0) == (true, x) && i == Index(0, va / PGSIZE) < 512
      ensures !alloc ==> t' == t && ram == old(ram) && free == old(free) && (found <==> Via(ram, t, va / PGSIZE, 0).0)
      ensures alloc && !found ==> free == []
      ensures |old(free)| <= |free| + 2 && (alloc && !found ==> |old(free)| <= 1)
    {
      hide Good, Evolved, Lookup, SameMap, Apart, Runs, RunAt, Distinct;
      ghost var n := va / PGSIZE;
      var level := 2;
      x := root;
      t' := t;
      TreeRoot(ram, t, n);
      StartWalk(ram, free, t);
      while level > 0
        invariant 0 <= level <= 2 && Holds(t')
        invariant Via(ram, t', n, level) == (true, x)
        invariant Evolved(old(ram), old(free), t, ram, free, t') && SameMap(old(ram), t, ram, t')
        invariant !alloc ==> t' == t && ram == old(ram) && free == old(free)
        invariant |old(free)| <= |free| + (2 - level)
      {
        PXIsIndex(level, va);
        TopIndex(n);
        ghost var ram0, free0, t0 := ram, free, t';
        var y;
        found, y, t' := Descend(x, PX(level, va), alloc, t');
        EvolvedTrans(old(ram), old(free), t, ram0, free0, t0, ram, free, t');
        SameMapTrans(old(ram), t, ram0, t0, ram, t');
        assert Via(ram, t', n, level) == (true, x) by { assert Via(ram0, t0, n, level).0; }
        if !found {
          NoPath(ram, t', n, level);
          return false, 0, 0, t';
        }
        level := level - 1;
        x := y;
      }
      PXIsIndex(0, va);
      i := PX(0, va);
      found := true;
    }

    /** A store through the entry pointer walk returned. */
    method Store(x: nat, i: nat, e: nat, ghost n: nat, ghost t: Tree)
      requires Holds(t) && n < MAXPAGES && Via(ram, t, n, 0) == (true, x) && i == Index(0, n) < 512
      requires if Present(e) then Leaf(e) else e == 0
      modifies this`ram
      ensures Holds(t) && Evolved(old(ram), free, t, ram, free, t)
      ensures x in t.owner && ram.Keys == old(ram).Keys && forall p :: p in ram && p != x ==> ram[p] == old(ram)[p]
      ensures forall m: nat {:trigger Lookup(ram, t, m)} :: m < MAXPAGES ==>
                Lookup(ram, t, m) == if m == n then e else Lookup(old(ram), t, m)
    {
      ghost var ram0 := ram;
      forall m: nat | m < MAXPAGES
        ensures Good(SetEntry(ram0, x, i, e), t)
        ensures Lookup(SetEntry(ram0, x, i, e), t, m) == if m == n then e else Lookup(ram0, t, m)
      {
        SetLeaf(ram0, t, n, e, m);
      }
      assert Good(SetEntry(ram0, x, i, e), t) by { SetLeaf(ram0, t, n, e, n); }
      ram := ram[x := ram[x][i := e]];
      RunsKept(ram0, ram, free);
    }

    /** One iteration of mappages. */
    method MapOne(root: nat, a: nat, pa: nat, perm: nat, ghost t: Tree) returns (ok: bool, ghost t': Tree)
      requires Holds(t) && root == t.root && a < MAXVA && perm < 1024 && (perm / 2) % 8 != 0
      requires !Present(Lookup(ram, t, a / PGSIZE))
      modifies this
      ensures Holds(t') && Evolved(old(ram), old(free), t, ram, free, t')
      ensures Mapped(old(ram), t, ram, t', a / PGSIZE, if ok then 1 else 0, pa / PGSIZE, perm)
      ensures if ok then |old(free)| <= |free| + 2 else free == [] && |old(free)| <= 1
    {
      hide Good, Evolved, Lookup, Apart, Via, Runs, RunAt, Distinct;
      var x, i;
      ok, x, i, t' := Walk(root, a, true, t);
      if !ok {
        return;
      }
      assert x in ram && !Present(ram[x][i]) by {   // no remap panic
        LookupIs(ram, t', a / PGSIZE);
        assert Lookup(ram, t', a / PGSIZE) == Lookup(old(ram), t, a / PGSIZE);
      }
      PteRoundTrip(pa / PGSIZE, perm);
      ghost var ram1, free1 := ram, free;
      Store(x, i, MakePte(pa / PGSIZE, perm), a / PGSIZE, t');
      EvolvedTrans(old(ram), old(free), t, ram1, free1, t', ram, free, t');
      forall m: nat | m < MAXPAGES
        ensures Lookup(ram, t', m) == if m == a / PGSIZE then MakePte(pa / PGSIZE, perm) else Lookup(old(ram), t, m)
      {
        assert Lookup(ram1, t', m) == Lookup(old(ram), t, m);
      }
    }

    /** mappages.  Its remap panic is excluded: no page of the range may be mapped.  When
        memory runs out, the first `done` pages stay mapped. */
    method MapPages(root: nat, va: nat, size: nat, pa: nat, perm: nat, ghost t: Tree)
      returns (ok: bool, ghost t': Tree, ghost done: nat)
      requires Holds(t) && root == t.root && size > 0 && va + size <= MAXVA && perm < 1024 && (perm / 2) % 8 != 0
      requires forall n: nat :: va / PGSIZE <= n <= (va + size - 1) / PGSIZE ==> !Present(Lookup(ram, t, n))
      modifies this
      ensures Holds(t') && Evolved(old(ram), old(free), t, ram, free, t')
      ensures Mapped(old(ram), t, ram, t', va / PGSIZE, done, pa / PGSIZE, perm)
      ensures var all := (va + size - 1) / PGSIZE - va / PGSIZE + 1;
              if ok then done == all && |old(free)| <= |free| + 2 * all
              else done < all && free == [] && |old(free)| <= 2 * done + 1
    {
      hide Good, Evolved, Lookup, Apart, Via, Runs, RunAt, Distinct;
      var a := va / PGSIZE * PGSIZE;                   // PGROUNDDOWN(va)
      var last := (va + size - 1) / PGSIZE * PGSIZE;   // PGROUNDDOWN(va + size - 1)
      var p := pa;
      done, t', ok := 0, t, true;
      StartWalk(ram, free, t);
      while true
        invariant a % PGSIZE == 0 && va / PGSIZE + done == a / PGSIZE && a <= last < MAXVA
        invariant p == pa + done * PGSIZE
        invariant Holds(t') && Evolved(old(ram), old(free), t, ram, free, t')
        invariant Mapped(old(ram), t, ram, t', va / PGSIZE, done, pa / PGSIZE, perm)
        invariant |old(free)| <= |free| + 2 * done
        decreases last - a
      {
        ghost var ram1, free1, t1 := ram, free, t';
        assert Lookup(ram, t', a / PGSIZE) == Lookup(old(ram), t, a / PGSIZE);
        assert t'.root == root by { SameRoot(old(ram), old(free), t, ram, free, t'); }
        ok, t' := MapOne(root, a, p, perm, t');
        EvolvedTrans(old(ram), old(free), t, ram1, free1, t1, ram, free, t');
        NextPage(pa, done);
        MappedMore(old(ram), t, ram1, t1, ram, t', va / PGSIZE, done, if ok then 1 else 0, pa / PGSIZE, perm);
        if !ok {
          return;
        }
        done := done + 1;
        if a == last {
          break;
        }
        a := a + PGSIZE;
        p := p + PGSIZE;
      }
    }

    /** One iteration of uvmunmap. */
    method UnmapOne(root: nat, a: nat, doFree: bool, ghost t: Tree)
      requires Holds(t) && root == t.root && a % PGSIZE == 0 && a < MAXVA && Present(Lookup(ram, t, a / PGSIZE))
      requires doFree ==> var p := Ppn(Lookup(ram, t, a / PGSIZE)); p in ram && p !in free && p !in t.owner
      modifies this
      ensures Holds(t) && Unmapped(old(ram), t, ram, t, a / PGSIZE, 1)
      ensures free == if doFree then [Ppn(Lookup(old(ram), t, a / PGSIZE))] + old(free) else old(free)
      ensures ram.Keys == old(ram).Keys
      ensures forall p :: p in ram && p !in t.owner && (doFree ==> p != Ppn(Lookup(old(ram), t, a / PGSIZE))) ==>
              ram[p] == old(ram)[p]
    {
      hide Good, Lookup, Apart, Via, Runs, RunAt, Junk;
      ghost var n := a / PGSIZE;
      LookupIs(ram, t, n);
      var found, x, i, t' := Walk(root, a, false, t);
      var pte := ram[x][i];
      assert pte == Lookup(ram, t, n) && Leaf(pte);   // no "not mapped" and no "not a leaf" panic
      ghost var ram1 := ram;
      if doFree {
        var p := Ppn(pte);
        Kfree(p);
        OtherPage(ram1, ram, t, p);
        KeepApart(t, ram1, p, old(free));
      }
      ghost var ram2 := ram;
      assert Via(ram, t, n, 0) == (true, x) by { if doFree { SamePages(ram1, ram, t, n, 0); } }
      assert forall m: nat :: m < MAXPAGES ==> Lookup(ram2, t, m) == Lookup(ram1, t, m);
      Store(x, i, 0, n, t);
    }

    /** uvmunmap.  Its panics are excluded: every page must be mapped. */
    method UvmUnmap(root: nat, va: nat, npages: nat, doFree: bool, ghost t: Tree, ghost data: seq<nat>)
      requires Holds(t) && root == t.root && va % PGSIZE == 0 && |data| == npages
      requires Mapping(ram, t, va / PGSIZE, data) && (doFree ==> Backed(ram, t, free, data))
      modifies this
      ensures Holds(t) && Unmapped(old(ram), t, ram, t, va / PGSIZE, npages) && ram.Keys == old(ram).Keys
      ensures Pages(free) == if doFree then Pages(old(free)) + Pages(data) else Pages(old(free))
      ensures forall p :: p in ram && p !in t.owner && (doFree ==> p !in data) ==> ram[p] == old(ram)[p]
    {
      hide Good, Lookup, Apart, Via, Runs, RunAt, Junk, Distinct, Dropped, Mapping, Backed, Unmapped;
      var a := va;
      ghost var k := 0;
      StartDrop(ram, free, t, va / PGSIZE, data, doFree);
      while a < va + npages * PGSIZE
        invariant k <= npages && a == va + k * PGSIZE && Holds(t)
        invariant Dropped(old(ram), old(free), t, ram, free, va / PGSIZE, data, k, doFree)
        decreases npages - k
      {
        NextPage(va, k);
        ghost var ram1, free1 := ram, free;
        DropNext(old(ram), old(free), t, ram, free, va / PGSIZE, data, k, doFree);
        UnmapOne(root, a, doFree, t);
        DropMore(old(ram), old(free), t, ram1, free1, ram, free, va / PGSIZE, data, k, doFree);
        a := a + PGSIZE;
        k := k + 1;
      }
      DropEnds(old(ram), old(free), t, ram, free, va / PGSIZE, data, doFree);
    }

    /** uvmdealloc. */
    method UvmDealloc(root: nat, oldsz: nat, newsz: nat, ghost t: Tree, ghost data: seq<nat>) returns (r: nat)
      requires Holds(t) && root == t.root
      requires |data| == if newsz < oldsz then PageUp(oldsz) - PageUp(newsz) else 0
      requires newsz < oldsz ==> Mapping(ram, t, PageUp(newsz), data) && Backed(ram, t, free, data)
      modifies this
      ensures Holds(t) && r == (if newsz < oldsz then newsz else oldsz) && ram.Keys == old(ram).Keys
      ensures newsz >= oldsz ==> ram == old(ram) && free == old(free)
      ensures Unmapped(old(ram), t, ram, t, PageUp(newsz), |data|) && Pages(free) == Pages(old(free)) + Pages(data)
      ensures forall p :: p in ram && p !in t.owner && p !in data ==> ram[p] == old(ram)[p]
    {
      hide Good, Lookup, Apart, Via, Runs, RunAt, Junk;
      StartUnmap(ram, t, PageUp(newsz));
      if newsz >= oldsz {
        return oldsz;
      }
      if PageUp(newsz) * PGSIZE < PageUp(oldsz) * PGSIZE {
        var npages := (PageUp(oldsz) * PGSIZE - PageUp(newsz) * PGSIZE) / PGSIZE;
        UvmUnmap(root, PageUp(newsz) * PGSIZE, npages, true, t, data);
      }
      r := newsz;
    }

    /** kalloc, then memset or memmove of the whole page. */
    method FilledPage(content: Page, ghost t: Tree) returns (ok: bool, p: nat)
      requires Holds(t)
      modifies this
      ensures Holds(t) && SameMap(old(ram), t, ram, t) && ram.Keys == old(ram).Keys
      ensures ok ==> old(free) == [p] + free && p !in free && p in ram && p !in t.owner && ram[p] == content
      ensures ok ==> forall x :: x in ram && x != p ==> ram[x] == old(ram)[x]
      ensures !ok ==> ram == old(ram) && free == old(free) == []
    {
      hide Good, Lookup, Via, Runs, RunAt, Junk;
      ghost var ram0 := ram;
      ok, p := Kalloc();
      if ok {
        assert old(free)[0] == p;
        OtherPage(ram0, ram, t, p);
        ghost var ram1 := ram;
        ram := ram[p := content];
        RunsKept(ram1, ram, free);
        OtherPage(ram0, ram, t, p);
      } else {
        StartWalk(ram, free, t);
      }
    }

    /** One iteration of uvmalloc or uvmcopy: a filled page mapped at `a`, or nothing. */
    method AllocOne(root: nat, a: nat, content: Page, perm: nat, ghost t: Tree)
      returns (ok: bool, ghost mem: nat, ghost t': Tree)
      requires Holds(t) && root == t.root && a % PGSIZE == 0 && a < MAXVA && !Present(Lookup(ram, t, a / PGSIZE))
      requires perm < 1024 && (perm / 2) % 8 != 0
      modifies this
      ensures Holds(t')
      ensures !ok ==> Evolved(old(ram), old(free), t, ram, free, t') && SameMap(old(ram), t, ram, t')
      ensures ok ==> Mapped(old(ram), t, ram, t', a / PGSIZE, 1, mem, perm)
      ensures ok ==> mem !in free && mem !in t'.owner && mem in ram && ram[mem] == content
      ensures ok ==> mem in old(free) && Took(old(ram), old(free), t, ram, free, t', [mem])
      ensures if ok then |old(free)| <= |free| + 3 else |old(free)| <= 2
    {
      hide Good, Lookup, Apart, Via, Runs, RunAt, Junk;
      ghost var ram0, free0 := ram, free;
      var p;
      t' := t;
      ok, p := FilledPage(content, t);
      mem := p;
      if !ok {
        StartWalk(ram, free, t);
        return;
      }
      assert Lookup(ram, t, a / PGSIZE) == Lookup(ram0, t, a / PGSIZE);
      ghost var ram2, free2 := ram, free;
      ghost var done;
      OnePage(a);
      NextPage(0, p);
      ok, t', done := MapPages(root, a, PGSIZE, p * PGSIZE, perm, t);
      MappedAfterSame(ram0, ram2, t, ram, t', a / PGSIZE, done, p, perm);
      TookOne(ram0, free0, t, p, ram2, free2, ram, free, t');
      if !ok {
        ghost var ram3, free3 := ram, free;
        Kfree(p);
        OtherPage(ram3, ram, t', p);
        PutBack(ram0, free0, t, p, ram3, free3, t', ram);
        SameMapTrans(ram0, t, ram3, t', ram, t');
        KeepApart(t', ram, p, free3);
      }
    }

    /** uvmcreate: an empty page table. */
    method UvmCreate() returns (ok: bool, root: nat, ghost t: Tree)
      requires Valid()
      modifies this
      ensures Valid() && ram.Keys == old(ram).Keys && (ok <==> old(free) != [])
      ensures !ok ==> ram == old(ram) && free == old(free)
      ensures ok ==> old(free) == [root] + free && t == Tree(root, map[root := Node(2, 0, 0)]) && Holds(t)
      ensures ok ==> forall n: nat {:trigger Lookup(ram, t, n)} :: n < MAXPAGES ==> Lookup(ram, t, n) == 0
      ensures ok ==> forall x :: x in ram && x != root ==> ram[x] == old(ram)[x]
    {
      hide Good, Lookup, Runs, RunAt, Junk, Distinct;
      ok, root := Kalloc();
      t := Tree(root, map[root := Node(2, 0, 0)]);
      if ok {
        assert root == old(free)[0];
        ghost var ram1 := ram;
        ram := ram[root := ZeroPage()];
        RunsKept(ram1, ram, free);
        EmptyTree(ram, root);
      }
    }

    /** uvmalloc.  Its pages must not be mapped yet.  On failure the flat map is what it was
        and every data page is free again; it does not fail while three pages are free for
        every new one (the page and at most two page-table pages). */
    method UvmAlloc(root: nat, oldsz: nat, newsz: nat, ghost t: Tree)
      returns (r: nat, ghost ok: bool, ghost t': Tree, ghost data: seq<nat>)
      requires Holds(t) && root == t.root && newsz <= MAXVA
      requires forall n: nat :: PageUp(oldsz) <= n < PageUp(newsz) ==> !Present(Lookup(ram, t, n))
      modifies this
      ensures Holds(t') && r == if newsz < oldsz then oldsz else if ok then newsz else 0
      ensures newsz < oldsz ==> t' == t && ram == old(ram) && free == old(free)
      ensures newsz >= oldsz && ok ==>
                && |data| == PageUp(newsz) - PageUp(oldsz)
                && Fill(old(ram), old(free), t, ram, free, t', PageUp(oldsz), data,
                        Same(USER_RWX, |data|), Same(ZeroPage(), |data|))
      ensures !ok ==> Evolved(old(ram), old(free), t, ram, free, t') && SameMap(old(ram), t, ram, t')
      ensures !ok ==> |old(free)| < 3 * (PageUp(newsz) - PageUp(oldsz))
    {
      hide Good, Lookup, Apart, Via, Fill, Evolved, ZeroPage, SameMap, Same, Took, Backed, Mapping, Mapped, Unmapped,
           Runs, RunAt, Distinct;
      t', data, ok := t, [], true;
      if newsz < oldsz {
        return oldsz, ok, t', data;
      }
      var first := PageUp(oldsz);
      var a := first * PGSIZE;
      FillStart(ram, free, t, first);
      assert Same(USER_RWX, 0) == [] && Same(ZeroPage(), 0) == [] by { SameMore(USER_RWX, 0); SameMore(ZeroPage(), 0); }
      while a < newsz
        invariant a == (first + |data|) * PGSIZE && first + |data| <= PageUp(newsz) <= MAXPAGES && Holds(t')
        invariant Fill(old(ram), old(free), t, ram, free, t', first, data, Same(USER_RWX, |data|),
                  Same(ZeroPage(), |data|))
        invariant |old(free)| <= |free| + 3 * |data|
        decreases newsz - a
      {
        FillFacts(old(ram), old(free), t, ram, free, t', first, data, Same(USER_RWX, |data|), Same(ZeroPage(), |data|));
        ghost var ram1, free1, t1 := ram, free, t';
        var done;
        ghost var mem;
        done, mem, t' := AllocOne(root, a, ZeroPage(), USER_RWX, t');
        if !done {
          FillFailed(old(ram), old(free), t, ram1, free1, t1, ram, free, t', first, data, Same(USER_RWX, |data|),
            Same(ZeroPage(), |data|));
          ghost var ram2, free2 := ram, free;
          ok := false;
          PageUpExact(first);
          PageUpExact(first + |data|);
          var back := UvmDealloc(root, a, first * PGSIZE, t', data);
          FillUndone(old(ram), old(free), t, ram2, free2, t', ram, free, first, data, Same(USER_RWX, |data|),
            Same(ZeroPage(), |data|));
          return 0, ok, t', data;
        }
        FillMore(old(ram), old(free), t, ram1, free1, t1, ram, free, t', first, data, Same(USER_RWX, |data|),
          Same(ZeroPage(), |data|), mem, USER_RWX, ZeroPage());
        SameMore(USER_RWX, |data|);
        SameMore(ZeroPage(), |data|);
        data := data + [mem];
        a := a + PGSIZE;
      }
      r := newsz;
    }

    /** freewalk of the subtree of page `x`, `level` levels above the last.  `ram0` is the
        memory before the outermost call: the subtree is still as it was then. */
    method FreeWalk(x: nat, level: nat, ghost t: Tree, ghost ram0: Ram)
      requires Valid() && Good(ram0, t) && x in t.owner && t.owner[x].level == level && NoLeaf(ram0, t, x)
      requires forall y :: y in Subtree(t, x) ==> y in ram && y in ram0 && ram[y] == ram0[y] && y !in free
      modifies this
      ensures Valid() && ram.Keys == old(ram).Keys && Pages(free) == Pages(old(free)) + Subtree(t, x)
      ensures forall p :: p in ram && p !in Subtree(t, x) ==> ram[p] == old(ram)[p]
      decreases level
    {
      hide Good, Under, Branch, NoLeaf, Runs, RunAt, Junk, Distinct, Freeing, Subtree, Branches;
      StartFreeing(ram, free, ram0, t, x);
      var i := 0;
      while i < 512
        invariant i <= 512 && x in ram && Valid() && Freeing(old(ram), old(free), ram, free, ram0, t, x, i)
      {
        EntryLeft(old(ram), old(free), ram, free, ram0, t, x, i);
        var pte := ram[x][i];
        if Present(pte) && !Leaf(pte) {
          var child := Ppn(pte);
          ghost var ram1, free1 := ram, free;
          ChildLeft(old(ram), old(free), ram, free, ram0, t, x, i, child);
          FreeWalk(child, level - 1, t, ram0);
          ghost var ram2 := ram;
          ram := ram[x := ram[x][i := 0]];
          ChildFreed(old(ram), old(free), ram1, free1, ram2, free, ram, ram0, t, x, i, child);
          RunsKept(ram2, ram, free);
        } else {
          assert !Present(pte);   // no "leaf" panic
          EntrySkipped(old(ram), old(free), ram, free, ram0, t, x, i);
        }
        i := i + 1;
      }
      BranchesFreed(old(ram), old(free), ram, free, ram0, t, x);
      Kfree(x);
      assert Pages(free) == {x} + Pages(free[1..]);
    }

    /** uvmfree: nothing but the first PageUp(sz) pages may be mapped.  Every data page and
        every page-table page is free again, once. */
    method UvmFree(root: nat, sz: nat, ghost t: Tree, ghost data: seq<nat>)
      requires Holds(t) && root == t.root && |data| == PageUp(sz)
      requires Mapping(ram, t, 0, data) && Backed(ram, t, free, data)
      requires forall n: nat :: PageUp(sz) <= n < MAXPAGES ==> !Present(Lookup(ram, t, n))
      modifies this
      ensures Valid() && ram.Keys == old(ram).Keys
      ensures Pages(free) == Pages(old(free)) + Pages(data) + t.owner.Keys
      ensures forall p :: p in ram && p !in t.owner && p !in data ==> ram[p] == old(ram)[p]
    {
      hide Good, Lookup, Via, Under, Runs, RunAt, Distinct;
      ghost var ram0 := ram;
      StartUnmap(ram, t, 0);
      if sz > 0 {
        UvmUnmap(root, 0, PageUp(sz), true, t, data);
      }
      EmptyMapHasNoLeaf(ram0, ram, t, PageUp(sz));
      WholeTree(ram, t);
      FreeWalk(root, 2, t, ram);
    }

    /** uvmcopy from the tree `s`, whose first pages are the frames `src`, to the tree `t`.  On
        success the child has its own copy of every page under the same flags; on failure its
        flat map is what it was and every page taken for data is free again.  Either way the
        parent is untouched.  Like uvmalloc it fails only for want of memory. */
    method UvmCopy(oldroot: nat, newroot: nat, sz: nat, ghost s: Tree, ghost src: seq<nat>, ghost t: Tree)
      returns (ok: bool, ghost t': Tree, ghost data: seq<nat>)
      requires Holds(s) && oldroot == s.root && Holds(t) && newroot == t.root && s.owner.Keys !! t.owner.Keys
      requires sz <= MAXVA && |src| == PageUp(sz) && Mapping(ram, s, 0, src) && Backed(ram, s, free, src)
      requires forall p :: p in src ==> p !in t.owner
      requires forall n: nat :: n < PageUp(sz) ==> !Present(Lookup(ram, t, n))
      modifies this
      ensures Holds(t') && Holds(s) && SameMap(old(ram), s, ram, s) && forall p :: p in src ==>
              p in ram && ram[p] == old(ram)[p]
      ensures ok ==>
                && |data| == PageUp(sz)
                && Fill(old(ram), old(free), t, ram, free, t', 0, data, SourceFlags(old(ram), s, |data|),
                   Contents(old(ram), src, |data|))
      ensures !ok ==> Evolved(old(ram), old(free), t, ram, free, t') && SameMap(old(ram), t, ram, t')
      ensures !ok ==> |old(free)| < 3 * PageUp(sz)
    {
      hide Good, Lookup, Apart, Via, Fill, Evolved, SameMap, Took, Backed, Mapping, Mapped, Unmapped, SourceFlags,
           Contents, Runs, RunAt, Distinct;
      BackedInRam(ram, s, free, src);
      t', data, ok := t, [], true;
      var i := 0;
      FillStart(ram, free, t, 0);
      StartCopy(ram, s, src);
      while i < sz
        invariant i == |data| * PGSIZE && |data| <= PageUp(sz) <= MAXPAGES && Holds(t')
        invariant Fill(old(ram), old(free), t, ram, free, t', 0, data, SourceFlags(old(ram), s, |data|),
                  Contents(old(ram), src, |data|))
        invariant |old(free)| <= |free| + 3 * |data|
        decreases sz - i
      {
        ghost var flags, contents := SourceFlags(old(ram), s, |data|), Contents(old(ram), src, |data|);
        FillFacts(old(ram), old(free), t, ram, free, t', 0, data, flags, contents);
        SourceKept(old(ram), old(free), s, src, t, ram, free, t', data, flags, contents);
        SourcePage(old(ram), old(free), s, src, ram, |data|);
        NextPage(0, |data|);
        ghost var ram1, free1, t1 := ram, free, t';
        LookupIs(ram, s, |data|);
        var found, x, j, s' := Walk(oldroot, i, false, s);
        var pte := ram[x][j];                       // no "pte should exist" panic
        assert pte == Lookup(ram, s, |data|);       // no "page not present" panic
        var done;
        ghost var mem;
        done, mem, t' := AllocOne(newroot, i, ram[Ppn(pte)], Flags(pte), t');
        if !done {
          FillFailed(old(ram), old(free), t, ram1, free1, t1, ram, free, t', 0, data, flags, contents);
          ghost var ram2, free2 := ram, free;
          ok := false;
          UvmUnmap(newroot, 0, i / PGSIZE, true, t', data);
          FillUndone(old(ram), old(free), t, ram2, free2, t', ram, free, 0, data, flags, contents);
          ParentKept(old(ram), old(free), s, src, t, ram, free, t');
          return ok, t', data;
        }
        FillMore(old(ram), old(free), t, ram1, free1, t1, ram, free, t', 0, data, flags, contents, mem, Flags(pte),
          ram1[Ppn(pte)]);
        CopyMore(old(ram), s, src, |data|);
        data := data + [mem];
        i := i + PGSIZE;
      }
      SourceKept(old(ram), old(free), s, src, t, ram, free, t', data,
                 SourceFlags(old(ram), s, |data|), Contents(old(ram), src, |data|));
    }
  }

  /** The flag bits of the first `k` entries. */
  ghost function SourceFlags(ram: Ram, s: Tree, k: nat): seq<nat>
    requires Good(ram, s)
  {
    seq(k, (i: nat) => Flags(Lookup(ram, s, i)))
  }

  /** The contents of the first `k` frames. */
  function Contents(ram: Ram, src: seq<nat>, k: nat): seq<Page>
    requires k <= |src| && forall p :: p in src ==> p in ram
  {
    seq(k, (i: nat) requires i < k => ram[src[i]])
  }

  lemma BackedInRam(ram: Ram, s: Tree, free: seq<nat>, src: seq<nat>)
    requires Backed(ram, s, free, src)
    ensures forall p :: p in src ==> p in ram
  {
  }

  lemma StartCopy(ram: Ram, s: Tree, src: seq<nat>)
    requires Good(ram, s) && forall p :: p in src ==> p in ram
    ensures SourceFlags(ram, s, 0) == [] && Contents(ram, src, 0) == []
  {
  }

  lemma CopyMore(ram: Ram, s: Tree, src: seq<nat>, k: nat)
    requires Good(ram, s) && k < |src| && forall p :: p in src ==> p in ram
    ensures SourceFlags(ram, s, k + 1) == SourceFlags(ram, s, k) + [Flags(Lookup(ram, s, k))]
    ensures Contents(ram, src, k + 1) == Contents(ram, src, k) + [ram[src[k]]]
  {
  }

  /** Filling one tree leaves another, disjoint one and its frames alone. */
  lemma SourceKept(r0: Ram, f0: seq<nat>, s: Tree, src: seq<nat>, t0: Tree, r: Ram, f: seq<nat>, t: Tree,
                   data: seq<nat>, perms: seq<nat>, contents: seq<Page>)
    requires Good(r0, s) && Apart(s, f0) && Backed(r0, s, f0, src) && s.owner.Keys !! t0.owner.Keys
    requires forall p :: p in src ==> p !in t0.owner
    requires Fill(r0, f0, t0, r, f, t, 0, data, perms, contents)
    ensures Good(r, s) && SameMap(r0, s, r, s) && Apart(s, f) && forall p :: p in src ==> p in r && r[p] == r0[p]
  {
    hide Lookup, Via;
    Untouched(r0, s, src, r, f0, t0);
    assert Pages(f) <= Pages(f0) + t0.owner.Keys;
    assert forall p :: p in s.owner && p in f ==> p in Pages(f);
  }

  lemma Untouched(r0: Ram, s: Tree, src: seq<nat>, r: Ram, f0: seq<nat>, t0: Tree)
    requires Good(r0, s) && Apart(s, f0) && Backed(r0, s, f0, src) && s.owner.Keys !! t0.owner.Keys
    requires forall p :: p in src ==> p !in t0.owner
    requires r.Keys == r0.Keys && forall p :: p in r0 && p !in f0 && p !in t0.owner ==> r[p] == r0[p]
    ensures Good(r, s) && SameMap(r0, s, r, s) && forall p :: p in src ==> p in r && r[p] == r0[p]
  {
    hide Lookup, Via;
    forall x | x in s.owner
      ensures x in r && r[x] == r0[x]
    {
      assert x in s.owner.Keys && x in r0;
    }
    TreeFrame(r0, r, s);
    forall n: nat | n < MAXPAGES
      ensures Lookup(r, s, n) == Lookup(r0, s, n)
    {
      SameLookup(r0, r, s, n);
    }
  }

  lemma SameLookup(ram: Ram, ram': Ram, t: Tree, n: nat)
    requires Good(ram, t) && forall x :: x in t.owner ==> x in ram' && ram'[x] == ram[x]
    ensures Good(ram', t) && Lookup(ram', t, n) == Lookup(ram, t, n)
  {
    SamePages(ram, ram', t, n, 0);
  }

  lemma ParentKept(r0: Ram, f0: seq<nat>, s: Tree, src: seq<nat>, t0: Tree, r: Ram, f: seq<nat>, t: Tree)
    requires Good(r0, s) && Apart(s, f0) && Backed(r0, s, f0, src) && s.owner.Keys !! t0.owner.Keys
    requires forall p :: p in src ==> p !in t0.owner
    requires Evolved(r0, f0, t0, r, f, t)
    ensures Good(r, s) && SameMap(r0, s, r, s) && Apart(s, f) && forall p :: p in src ==> p in r && r[p] == r0[p]
  {
    hide Lookup, Via;
    Untouched(r0, s, src, r, f0, t0);
    assert forall p :: p in s.owner && p in f ==> p in Pages(f) + t.owner.Keys;
  }

  /** Page `k` of the source is still mapped to its frame, which holds what it held. */
  lemma SourcePage(r0: Ram, f0: seq<nat>, s: Tree, src: seq<nat>, r: Ram, k: nat)
    requires Good(r0, s) && Good(r, s) && SameMap(r0, s, r, s) && Mapping(r0, s, 0, src) && k < |src|
    requires Backed(r0, s, f0, src) && forall p :: p in src ==> p in r && r[p] == r0[p]
    ensures var e := Lookup(r, s, k);
            && e == Lookup(r0, s, k) && Present(e) && Leaf(e) && Ppn(e) == src[k] && Ppn(e) in r
               && r[Ppn(e)] == r0[src[k]]
            && Flags(e) < 1024 && (Flags(e) / 2) % 8 != 0
  {
    assert src[k] in src;
    assert Lookup(r, s, k) == Lookup(r0, s, 0 + k);
    LookupIs(r, s, k);
    var e := Lookup(r, s, k);
    PteBits(Ppn(e), Flags(e));
  }

  /** Every last-level entry is the entry of some virtual page below MAXVA. */
  lemma EntryIsMapped(ram: Ram, t: Tree, y: nat, k: nat) returns (n: nat)
    requires Good(ram, t) && y in t.owner && t.owner[y].level == 0 && k < 512
    ensures n < MAXPAGES && Via(ram, t, n, 0) == (true, y) && Index(0, n) == k
  {
    assert UpOk(ram, t, y);
    var p := t.owner[y].parent;
    assert UpOk(ram, t, p) && UpOk(ram, t, t.owner[p].parent);
    n := PageOf(t.owner[p].index, t.owner[y].index, k);
    assert Via(ram, t, n, 1) == (true, p);
  }

  lemma PageOf(a: nat, b: nat, c: nat) returns (n: nat)
    requires a < 256 && b < 512 && c < 512
    ensures n < MAXPAGES && Index(2, n) == a && Index(1, n) == b && Index(0, n) == c
  {
    n := a * 0x4_0000 + b * 512 + c;
    assert n / 512 == a * 512 + b;
  }

  lemma EmptyMapHasNoLeaf(ram0: Ram, ram: Ram, t: Tree, k: nat)
    requires Good(ram0, t) && Good(ram, t) && Unmapped(ram0, t, ram, t, 0, k)
    requires forall n: nat :: k <= n < MAXPAGES ==> !Present(Lookup(ram0, t, n))
    ensures NoLeaf(ram, t, t.root)
  {
    forall y, i: nat | y in Subtree(t, t.root) && t.owner[y].level == 0 && i < 512
      ensures Gone(ram, t, y, i)
    {
      var n := EntryIsMapped(ram, t, y, i);
      LookupIs(ram, t, n);
      assert !Present(Lookup(ram, t, n));
    }
  }

  /** Every page of a tree hangs below its root. */
  lemma {:induction false} UnderRoot(ram: Ram, t: Tree, y: nat)
    requires Good(ram, t) && y in t.owner
    ensures t.owner[y].level <= 2 && Under(t, y, t.root)
    decreases 2 - (if t.owner[y].level <= 2 then t.owner[y].level else 2)
  {
    assert UpOk(ram, t, y);
    if y != t.root {
      UnderRoot(ram, t, t.owner[y].parent);
    }
  }

  lemma WholeTree(ram: Ram, t: Tree)
    requires Good(ram, t)
    ensures t.root in t.owner && t.owner[t.root].level == 2 && Subtree(t, t.root) == t.owner.Keys
    ensures forall y :: y in t.owner ==> y in ram
  {
    assert UpOk(ram, t, t.root);
    forall y | y in t.owner
      ensures Under(t, y, t.root)
    {
      UnderRoot(ram, t, y);
    }
  }

  /** All leaf mappings below `x` have been removed. */
  ghost predicate NoLeaf(ram: Ram, t: Tree, x: nat)
    requires Good(ram, t)
  {
    forall y, k: nat {:trigger Gone(ram, t, y, k)} :: y in Subtree(t, x) && t.owner[y].level == 0 && k < 512 ==>
           Gone(ram, t, y, k)
  }

  predicate Gone(ram: Ram, t: Tree, y: nat, k: nat)
    requires y in t.owner && k < 512
  {
    y in ram && !Present(ram[y][k])
  }

  /** freewalk has treated the first `i` entries of page `x`: what hung below them is free. */
  ghost predicate Freeing(r0: Ram, f0: seq<nat>, r: Ram, f: seq<nat>, ram0: Ram, t: Tree, x: nat, i: nat) {
    && i <= 512 && x in ram0 && x in r && r.Keys == r0.Keys
    && (forall y :: y in Subtree(t, x) ==> y in r0 && y in ram0 && r0[y] == ram0[y] && y !in f0)
    && Pages(f) == Pages(f0) + Branches(t, x, i)
    && (forall k :: i <= k < 512 ==> r[x][k] == ram0[x][k])
    && (forall p :: p in r && p != x && p !in Branches(t, x, i) ==> r[p] == r0[p])
  }

  lemma StartFreeing(r: Ram, f: seq<nat>, ram0: Ram, t: Tree, x: nat)
    requires Good(ram0, t) && x in t.owner && NoLeaf(ram0, t, x)
    requires forall y :: y in Subtree(t, x) ==> y in r && y in ram0 && r[y] == ram0[y] && y !in f
    ensures x in r && Freeing(r, f, r, f, ram0, t, x, 0)
  {
    hide Good, NoLeaf, Under;
    SelfInSubtree(t, x);
    NoBranches(t, x);
    EntryFacts(ram0, t, x, 0);
  }

  /** Entry `i` is still as it was; if it is present, it points to a page one level down. */
  lemma EntryLeft(r0: Ram, f0: seq<nat>, r: Ram, f: seq<nat>, ram0: Ram, t: Tree, x: nat, i: nat)
    requires Good(ram0, t) && x in t.owner && NoLeaf(ram0, t, x) && i < 512 && Freeing(r0, f0, r, f, ram0, t, x, i)
    ensures x in r
    ensures Present(r[x][i]) ==>
              var c := Ppn(r[x][i]);
              t.owner[x].level > 0 && !Leaf(r[x][i]) && c in t.owner && t.owner[c] == Node(t.owner[x].level - 1, x, i)
  {
    hide Good, NoLeaf;
    EntryFacts(ram0, t, x, i);
  }

  lemma ChildLeft(r0: Ram, f0: seq<nat>, r: Ram, f: seq<nat>, ram0: Ram, t: Tree, x: nat, i: nat, c: nat)
    requires Good(ram0, t) && x in t.owner && NoLeaf(ram0, t, x) && i < 512 && Freeing(r0, f0, r, f, ram0, t, x, i)
    requires t.owner[x].level > 0 && c in t.owner && t.owner[c] == Node(t.owner[x].level - 1, x, i)
    ensures NoLeaf(ram0, t, c) && forall y :: y in Subtree(t, c) ==> y in r && y in ram0 && r[y] == ram0[y] && y !in f
  {
    hide Good, NoLeaf, Under, Subtree, Branches;
    OneBranch(ram0, t, x, i, c);
    NoLeafBelow(ram0, t, x, i, c);
    forall y | y in Subtree(t, c)
      ensures y in r && y in ram0 && r[y] == ram0[y] && y !in f
    {
      assert y in Subtree(t, x) && y !in Branches(t, x, i) && y != x;
      assert y !in Pages(f);
    }
  }

  lemma ChildFreed(r0: Ram, f0: seq<nat>, r1: Ram, f1: seq<nat>, r2: Ram, f2: seq<nat>, r3: Ram, ram0: Ram, t: Tree,
                   x: nat, i: nat, c: nat)
    requires Good(ram0, t) && x in t.owner && i < 512 && Freeing(r0, f0, r1, f1, ram0, t, x, i)
    requires t.owner[x].level > 0 && c in t.owner && t.owner[c] == Node(t.owner[x].level - 1, x, i)
    requires r2.Keys == r1.Keys && Pages(f2) == Pages(f1) + Subtree(t, c)
    requires forall p :: p in r2 && p !in Subtree(t, c) ==> r2[p] == r1[p]
    requires r3 == r2[x := r2[x][i := 0]]
    ensures Freeing(r0, f0, r3, f2, ram0, t, x, i + 1) && x !in f2
  {
    hide Good, Under, Subtree, Branches;
    OneBranch(ram0, t, x, i, c);
    NotFreed(ram0, t, x, i);
    SelfInSubtree(t, x);
    assert x !in Pages(f2);
  }

  /** The root of a subtree is on none of its branches. */
  lemma NotFreed(ram0: Ram, t: Tree, x: nat, i: nat)
    requires Good(ram0, t) && x in t.owner && i <= 512
    ensures x !in Branches(t, x, i)
  {
    AllBranches(ram0, t, x);
  }

  lemma EntrySkipped(r0: Ram, f0: seq<nat>, r: Ram, f: seq<nat>, ram0: Ram, t: Tree, x: nat, i: nat)
    requires Good(ram0, t) && x in t.owner && i < 512 && Freeing(r0, f0, r, f, ram0, t, x, i) && x in r
             && !Present(r[x][i])
    ensures Freeing(r0, f0, r, f, ram0, t, x, i + 1)
  {
    hide Good, Under, Subtree, Branches;
    NoBranch(ram0, t, x, i);
  }

  lemma BranchesFreed(r0: Ram, f0: seq<nat>, r: Ram, f: seq<nat>, ram0: Ram, t: Tree, x: nat)
    requires Good(ram0, t) && x in t.owner && Freeing(r0, f0, r, f, ram0, t, x, 512)
    ensures x in r && x !in f && r.Keys == r0.Keys && {x} + Pages(f) == Pages(f0) + Subtree(t, x) && x in Subtree(t, x)
    ensures forall p :: p in r && p !in Subtree(t, x) ==> r[p] == r0[p]
  {
    hide Good, Under, Branches;
    SelfInSubtree(t, x);
    AllBranches(ram0, t, x);
    assert x !in Pages(f);
  }

  lemma SelfInSubtree(t: Tree, x: nat)
    requires x in t.owner
    ensures x in Subtree(t, x)
  {
  }

  lemma NoBranches(t: Tree, x: nat)
    ensures Branches(t, x, 0) == {}
  {
  }

  lemma AllBranches(ram: Ram, t: Tree, x: nat)
    requires Good(ram, t) && x in t.owner
    ensures Subtree(t, x) == {x} + Branches(t, x, 512) && x !in Branches(t, x, 512)
  {
    forall y | y in Subtree(t, x) && y != x
      ensures y in Branches(t, x, 512)
    {
      BranchPresent(ram, t, y, x);
    }
  }

  lemma EntryFacts(ram: Ram, t: Tree, x: nat, i: nat)
    requires Good(ram, t) && x in t.owner && i < 512 && NoLeaf(ram, t, x)
    ensures x in ram
    ensures Present(ram[x][i]) ==>
              var c := Ppn(ram[x][i]);
              t.owner[x].level > 0 && !Leaf(ram[x][i]) && c in t.owner && t.owner[c] == Node(t.owner[x].level - 1, x, i)
  {
    assert DownOk(ram, t, x, i);
    SelfInSubtree(t, x);
    if t.owner[x].level == 0 {
      assert Gone(ram, t, x, i);
    } else if Present(ram[x][i]) {
      assert Flags(ram[x][i]) == 1;
      PteBits(Ppn(ram[x][i]), 1);
    }
  }

  /** The subtree under entry `i` is what the next branch adds. */
  lemma OneBranch(ram: Ram, t: Tree, x: nat, i: nat, c: nat)
    requires Good(ram, t) && x in t.owner && t.owner[x].level > 0 && c in t.owner
             && t.owner[c] == Node(t.owner[x].level - 1, x, i)
    ensures Branches(t, x, i + 1) == Branches(t, x, i) + Subtree(t, c) && Branches(t, x, i) !! Subtree(t, c)
    ensures x !in Subtree(t, c) && Subtree(t, c) <= Subtree(t, x)
  {
    forall y | y in t.owner
      ensures Under(t, y, c) <==> Under(t, y, x) && y != x && Branch(t, y, x) == i
    {
      UnderChild(ram, t, y, x, c, i);
    }
  }

  lemma NoBranch(ram: Ram, t: Tree, x: nat, i: nat)
    requires Good(ram, t) && x in t.owner && x in ram && i < 512 && !Present(ram[x][i])
    ensures Branches(t, x, i + 1) == Branches(t, x, i)
  {
    forall y | y in Branches(t, x, i + 1)
      ensures y in Branches(t, x, i)
    {
      BranchPresent(ram, t, y, x);
    }
  }

  lemma NoLeafBelow(ram: Ram, t: Tree, x: nat, i: nat, c: nat)
    requires Good(ram, t) && NoLeaf(ram, t, x) && x in t.owner && t.owner[x].level > 0
    requires c in t.owner && t.owner[c] == Node(t.owner[x].level - 1, x, i)
    ensures NoLeaf(ram, t, c)
  {
    OneBranch(ram, t, x, i, c);
    forall y, k: nat | y in Subtree(t, c) && t.owner[y].level == 0 && k < 512
      ensures Gone(ram, t, y, k)
    {
      assert y in Subtree(t, x);
    }
  }

  lemma PageUpExact(k: nat)
    ensures PageUp(k * PGSIZE) == k
  {
  }

  function Same<T>(x: T, n: nat): seq<T> { seq(n, _ => x) }

  lemma SameMore<T>(x: T, n: nat)
    ensures Same(x, n + 1) == Same(x, n) + [x] && Same(x, 0) == []
  {
  }

  /** Starting from the first state, pages `first`, `first` + 1, ... have been mapped to new
      frames `data` with the given flags and contents; everything else is as before. */
  ghost predicate Fill(r0: Ram, f0: seq<nat>, t0: Tree, r: Ram, f: seq<nat>, t: Tree,
                       first: nat, data: seq<nat>, perms: seq<nat>, contents: seq<Page>)
  {
    && Good(r0, t0) && Good(r, t) && |perms| == |contents| == |data|
    && Took(r0, f0, t0, r, f, t, data) && Backed(r, t, f, data)
    && (forall k :: 0 <= k < |data| ==> perms[k] < 1024 && r[data[k]] == contents[k])
    && (forall n: nat {:trigger Lookup(r, t, n)} :: n < MAXPAGES ==>
          Lookup(r, t, n) == if first <= n < first + |data| then MakePte(data[n - first], perms[n - first])
            else Lookup(r0, t0, n))
  }

  lemma FillStart(r: Ram, f: seq<nat>, t: Tree, first: nat)
    requires Good(r, t)
    ensures Fill(r, f, t, r, f, t, first, [], [], [])
  {
  }

  lemma FillFacts(r0: Ram, f0: seq<nat>, t0: Tree, r: Ram, f: seq<nat>, t: Tree,
                  first: nat, data: seq<nat>, perms: seq<nat>, contents: seq<Page>)
    requires Fill(r0, f0, t0, r, f, t, first, data, perms, contents)
    ensures t.root == t0.root && Backed(r, t, f, data)
    ensures first + |data| <= MAXPAGES ==> Mapping(r, t, first, data)
    ensures first + |data| < MAXPAGES ==> Lookup(r, t, first + |data|) == Lookup(r0, t0, first + |data|)
  {
    forall k: nat | k < |data| && first + |data| <= MAXPAGES
      ensures Present(Lookup(r, t, first + k)) && Ppn(Lookup(r, t, first + k)) == data[k]
    {
      PteRoundTrip(data[k], perms[k]);
    }
  }

  /** One page more has been taken; the earlier ones are as they were. */
  lemma TookMore(r0: Ram, f0: seq<nat>, t0: Tree, r1: Ram, f1: seq<nat>, t1: Tree, r2: Ram, f2: seq<nat>, t2: Tree,
                 data: seq<nat>, mem: nat)
    requires Took(r0, f0, t0, r1, f1, t1, data) && Backed(r1, t1, f1, data) && Took(r1, f1, t1, r2, f2, t2, [mem])
    requires mem in f1 && mem !in f2 && mem !in t2.owner && mem in r2
    ensures Took(r0, f0, t0, r2, f2, t2, data + [mem]) && Backed(r2, t2, f2, data + [mem])
    ensures forall p :: p in data ==> r2[p] == r1[p]
  {
    var data' := data + [mem];
    assert Pages(data') == Pages(data) + {mem} && Pages([mem]) == {mem};
    forall p | p in data
      ensures p in r2 && p != mem && p !in f2 && p !in t2.owner && r2[p] == r1[p]
    {
      assert p !in Pages(f1) + t1.owner.Keys;
      assert p !in Pages(f2) + t2.owner.Keys + Pages([mem]);
    }
    assert Pages(f2) + t2.owner.Keys + Pages(data') == Pages(f1) + t1.owner.Keys + Pages(data);
    assert forall p :: p !in f0 && p !in t0.owner ==> p !in Pages(f1) + t1.owner.Keys + Pages(data);
  }

  lemma FillMore(r0: Ram, f0: seq<nat>, t0: Tree, r1: Ram, f1: seq<nat>, t1: Tree, r2: Ram, f2: seq<nat>, t2: Tree,
                 first: nat, data: seq<nat>, perms: seq<nat>, contents: seq<Page>, mem: nat, perm: nat, content: Page)
    requires Fill(r0, f0, t0, r1, f1, t1, first, data, perms, contents)
    requires Good(r2, t2) && perm < 1024 && first + |data| < MAXPAGES
    requires Mapped(r1, t1, r2, t2, first + |data|, 1, mem, perm)
    requires mem in f1 && mem !in f2 && mem !in t2.owner && mem in r2 && r2[mem] == content
    requires Took(r1, f1, t1, r2, f2, t2, [mem])
    ensures Fill(r0, f0, t0, r2, f2, t2, first, data + [mem], perms + [perm], contents + [content])
  {
    hide Good, Lookup, Took, Backed;
    var data' := data + [mem];
    TookMore(r0, f0, t0, r1, f1, t1, r2, f2, t2, data, mem);
    forall n: nat | n < MAXPAGES
      ensures Lookup(r2, t2, n) ==
        if first <= n < first + |data'| then MakePte(data'[n - first], (perms + [perm])[n - first])
           else Lookup(r0, t0, n)
    {
      assert Lookup(r1, t1, n) == Lookup(r1, t1, n);
    }
  }

  /** A failed step leaves the pages filled so far as they were. */
  lemma FillFailed(r0: Ram, f0: seq<nat>, t0: Tree, r1: Ram, f1: seq<nat>, t1: Tree, r2: Ram, f2: seq<nat>, t2: Tree,
                   first: nat, data: seq<nat>, perms: seq<nat>, contents: seq<Page>)
    requires Fill(r0, f0, t0, r1, f1, t1, first, data, perms, contents) && Good(r2, t2)
    requires Evolved(r1, f1, t1, r2, f2, t2) && SameMap(r1, t1, r2, t2)
    ensures Fill(r0, f0, t0, r2, f2, t2, first, data, perms, contents)
    ensures t2.root == t0.root && Backed(r2, t2, f2, data)
    ensures first + |data| <= MAXPAGES ==> Mapping(r2, t2, first, data)
  {
    assert forall p :: p in data ==> p !in Pages(f1) + t1.owner.Keys && p in Pages(data);
    assert forall p :: p in f2 || p in t2.owner ==> p in Pages(f2) + t2.owner.Keys;
    assert Took(r0, f0, t0, r2, f2, t2, data) by {
      assert forall p :: p !in f0 && p !in t0.owner ==> p !in Pages(f1) + t1.owner.Keys + Pages(data);
    }
    forall n: nat | n < MAXPAGES
      ensures Lookup(r2, t2, n) ==
        if first <= n < first + |data| then MakePte(data[n - first], perms[n - first]) else Lookup(r0, t0, n)
    {
      assert Lookup(r1, t1, n) == Lookup(r1, t1, n);
    }
    FillFacts(r0, f0, t0, r2, f2, t2, first, data, perms, contents);
  }

  /** Unmapping and freeing the filled pages restores the flat map and the free memory. */
  lemma FillUndone(r0: Ram, f0: seq<nat>, t0: Tree, r1: Ram, f1: seq<nat>, t1: Tree, r2: Ram, f2: seq<nat>,
                   first: nat, data: seq<nat>, perms: seq<nat>, contents: seq<Page>)
    requires Fill(r0, f0, t0, r1, f1, t1, first, data, perms, contents) && Good(r2, t1)
    requires forall n: nat :: first <= n < first + |data| && n < MAXPAGES ==> !Present(Lookup(r0, t0, n))
    requires Unmapped(r1, t1, r2, t1, first, |data|) && Pages(f2) == Pages(f1) + Pages(data) && r2.Keys == r1.Keys
    requires forall p :: p in r2 && p !in t1.owner && p !in data ==> r2[p] == r1[p]
    ensures Evolved(r0, f0, t0, r2, f2, t1) && SameMap(r0, t0, r2, t1)
  {
    assert forall p :: p !in f0 && p !in t0.owner ==> p !in Pages(f1) + t1.owner.Keys + Pages(data);
    assert Pages(f2) + t1.owner.Keys == Pages(f1) + t1.owner.Keys + Pages(data);
    forall n: nat | n < MAXPAGES
      ensures Lookup(r2, t1, n) == Lookup(r0, t0, n)
    {
      LookupIs(r0, t0, n);
      assert Lookup(r1, t1, n) == Lookup(r1, t1, n);
    }
  }

  lemma OnePage(a: nat)
    requires a % PGSIZE == 0 && a < MAXVA
    ensures a + PGSIZE <= MAXVA && (a + PGSIZE - 1) / PGSIZE == a / PGSIZE
  {
  }

  lemma MappedAfterSame(r0: Ram, r1: Ram, t: Tree, r2: Ram, t2: Tree, first: nat, k: nat, ppn: nat, perm: nat)
    requires Good(r0, t) && Good(r1, t) && Good(r2, t2) && perm < 1024
    requires SameMap(r0, t, r1, t) && Mapped(r1, t, r2, t2, first, k, ppn, perm)
    ensures Mapped(r0, t, r2, t2, first, k, ppn, perm)
    ensures k == 0 ==> SameMap(r0, t, r2, t2)
  {
    forall n: nat | n < MAXPAGES
      ensures Lookup(r2, t2, n) == if first <= n < first + k then MakePte(ppn + (n - first), perm) else Lookup(r0, t, n)
    {
      assert Lookup(r1, t, n) == Lookup(r0, t, n);
    }
  }

  lemma TookOne(r0: Ram, f0: seq<nat>, t: Tree, p: nat, r2: Ram, f2: seq<nat>, r3: Ram, f3: seq<nat>, t3: Tree)
    requires f0 == [p] + f2 && p !in f2 && p !in t.owner && p in r0
    requires r2.Keys == r0.Keys && forall x :: x in r0 && x != p ==> r2[x] == r0[x]
    requires Evolved(r2, f2, t, r3, f3, t3)
    ensures Took(r0, f0, t, r3, f3, t3, [p]) && p !in f3 && p !in t3.owner && r3[p] == r2[p]
  {
    assert Pages(f0) == {p} + Pages(f2) && Pages([p]) == {p};
    assert p !in Pages(f3) + t3.owner.Keys;
  }

  lemma PutBack(r0: Ram, f0: seq<nat>, t: Tree, p: nat, r3: Ram, f3: seq<nat>, t3: Tree, r4: Ram)
    requires Took(r0, f0, t, r3, f3, t3, [p]) && p in f0
    requires r4.Keys == r3.Keys && forall x :: x in r3 && x != p ==> r4[x] == r3[x]
    ensures Evolved(r0, f0, t, r4, [p] + f3, t3)
  {
    assert Pages([p] + f3) == {p} + Pages(f3) && Pages([p]) == {p};
  }

  const USER_RWX: nat := 30   // PTE_W | PTE_X | PTE_R | PTE_U

  /** PGROUNDUP(sz) / PGSIZE. */
  function PageUp(sz: nat): nat { (sz + PGSIZE - 1) / PGSIZE }

  /** Pages moved from the free list into the tree and, as `data`, out of both. */
  ghost predicate Took(ram: Ram, free: seq<nat>, t: Tree, ram': Ram, free': seq<nat>, t': Tree, data: seq<nat>) {
    && ram'.Keys == ram.Keys && t'.root == t.root
    && Pages(free') + t'.owner.Keys + Pages(data) == Pages(free) + t.owner.Keys
    && t.owner.Keys <= t'.owner.Keys
    && forall p :: p in ram && p !in free && p !in t.owner ==> ram'[p] == ram[p]
  }

  /** `done` pages from `first` on are mapped to consecutive frames from `ppn` on; the flat
      map is the old one everywhere else. */
  ghost predicate Mapped(ram: Ram, t: Tree, ram': Ram, t': Tree, first: nat, done: nat, ppn: nat, perm: nat)
    requires Good(ram, t) && Good(ram', t') && perm < 1024
  {
    forall n: nat {:trigger Lookup(ram', t', n)} :: n < MAXPAGES ==>
      Lookup(ram', t', n) == if first <= n < first + done then MakePte(ppn + (n - first), perm) else Lookup(ram, t, n)
  }

  lemma MappedMore(r0: Ram, t0: Tree, r1: Ram, t1: Tree, r2: Ram, t2: Tree, first: nat, k: nat, one: nat, ppn: nat,
                   perm: nat)
    requires Good(r0, t0) && Good(r1, t1) && Good(r2, t2) && perm < 1024 && one <= 1
    requires Mapped(r0, t0, r1, t1, first, k, ppn, perm) && Mapped(r1, t1, r2, t2, first + k, one, ppn + k, perm)
    ensures Mapped(r0, t0, r2, t2, first, k + one, ppn, perm)
  {
    forall n: nat | n < MAXPAGES
      ensures Lookup(r2, t2, n) == if first <= n < first + k + one then MakePte(ppn + (n - first), perm)
              else Lookup(r0, t0, n)
    {
      assert Lookup(r1, t1, n) == Lookup(r1, t1, n);
    }
  }

  lemma SameRoot(r0: Ram, f0: seq<nat>, t0: Tree, r1: Ram, f1: seq<nat>, t1: Tree)
    requires Evolved(r0, f0, t0, r1, f1, t1)
    ensures t1.root == t0.root
  {
  }

  lemma NextPage(pa: nat, k: nat)
    ensures (pa + k * PGSIZE) / PGSIZE == pa / PGSIZE + k
  {
  }

  /** Virtual pages `first`, `first` + 1, ... are mapped to the frames of `data`. */
  ghost predicate Mapping(ram: Ram, t: Tree, first: nat, data: seq<nat>)
    requires Good(ram, t)
  {
    first + |data| <= MAXPAGES &&
    forall k: nat {:trigger data[k]} :: k < |data| ==>
      Present(Lookup(ram, t, first + k)) && Ppn(Lookup(ram, t, first + k)) == data[k]
  }

  /** Data frames are different pages, neither free nor part of the tree. */
  ghost predicate Backed(ram: Ram, t: Tree, free: seq<nat>, data: seq<nat>) {
    Distinct(data) && forall p :: p in data ==> p in ram && p !in free && p !in t.owner
  }

  ghost predicate Unmapped(ram: Ram, t: Tree, ram': Ram, t': Tree, first: nat, k: nat)
    requires Good(ram, t) && Good(ram', t')
  {
    forall n: nat {:trigger Lookup(ram', t', n)} :: n < MAXPAGES ==>
      Lookup(ram', t', n) == if first <= n < first + k then 0 else Lookup(ram, t, n)
  }

  /** The first `k` pages of a range have been unmapped, and their frames freed if asked. */
  ghost predicate Dropped(r0: Ram, f0: seq<nat>, t: Tree, r: Ram, f: seq<nat>, first: nat, data: seq<nat>, k: nat,
                          doFree: bool)
    requires Good(r0, t) && Good(r, t) && k <= |data|
  {
    && r.Keys == r0.Keys && Unmapped(r0, t, r, t, first, k)
    && Pages(f) == (if doFree then Pages(f0) + Pages(data[..k]) else Pages(f0))
    && forall p :: p in r && p !in t.owner && (doFree ==> p !in data[..k]) ==> r[p] == r0[p]
  }

  lemma StartDrop(r: Ram, f: seq<nat>, t: Tree, first: nat, data: seq<nat>, doFree: bool)
    requires Good(r, t)
    ensures Dropped(r, f, t, r, f, first, data, 0, doFree)
  {
    hide Good, Lookup;
  }

  /** The next page is still mapped to its frame, which is neither free nor part of the tree. */
  lemma DropNext(r0: Ram, f0: seq<nat>, t: Tree, r: Ram, f: seq<nat>, first: nat, data: seq<nat>, k: nat, doFree: bool)
    requires Good(r0, t) && Good(r, t) && k < |data| && Dropped(r0, f0, t, r, f, first, data, k, doFree)
    requires Mapping(r0, t, first, data) && (doFree ==> Backed(r0, t, f0, data))
    ensures first + k < MAXPAGES && Present(Lookup(r, t, first + k)) && Ppn(Lookup(r, t, first + k)) == data[k]
    ensures doFree ==> data[k] in r && data[k] !in f && data[k] !in t.owner
  {
    hide Good, Lookup;
    assert Lookup(r, t, first + k) == Lookup(r0, t, first + k);
    assert Ppn(Lookup(r0, t, first + k)) == data[k];
    if doFree {
      assert data[k] !in Pages(f0) && data[k] !in Pages(data[..k]);
      assert data[k] !in Pages(f);
    }
  }

  lemma DropMore(r0: Ram, f0: seq<nat>, t: Tree, r1: Ram, f1: seq<nat>, r2: Ram, f2: seq<nat>, first: nat,
                 data: seq<nat>, k: nat, doFree: bool)
    requires Good(r0, t) && Good(r1, t) && Good(r2, t) && k < |data|
             && Dropped(r0, f0, t, r1, f1, first, data, k, doFree)
    requires Unmapped(r1, t, r2, t, first + k, 1) && r2.Keys == r1.Keys && f2 == if doFree then [data[k]] + f1 else f1
    requires forall p :: p in r2 && p !in t.owner && (doFree ==> p != data[k]) ==> r2[p] == r1[p]
    ensures Dropped(r0, f0, t, r2, f2, first, data, k + 1, doFree)
  {
    hide Good, Lookup, Unmapped;
    UnmappedMore(r0, r1, r2, t, first, k);
    assert data[..k + 1] == data[..k] + [data[k]];
    assert Pages(data[..k + 1]) == Pages(data[..k]) + {data[k]};
    assert Pages([data[k]] + f1) == {data[k]} + Pages(f1);
  }

  lemma DropEnds(r0: Ram, f0: seq<nat>, t: Tree, r: Ram, f: seq<nat>, first: nat, data: seq<nat>, doFree: bool)
    requires Good(r0, t) && Good(r, t) && Dropped(r0, f0, t, r, f, first, data, |data|, doFree)
    ensures r.Keys == r0.Keys && Unmapped(r0, t, r, t, first, |data|)
    ensures Pages(f) == if doFree then Pages(f0) + Pages(data) else Pages(f0)
    ensures forall p :: p in r && p !in t.owner && (doFree ==> p !in data) ==> r[p] == r0[p]
  {
    hide Good, Lookup, Unmapped;
    assert data[..|data|] == data;
  }

  lemma StartUnmap(ram: Ram, t: Tree, first: nat)
    requires Good(ram, t)
    ensures Unmapped(ram, t, ram, t, first, 0)
  {
  }

  lemma UnmappedMore(r0: Ram, r1: Ram, r2: Ram, t: Tree, first: nat, k: nat)
    requires Good(r0, t) && Good(r1, t) && Good(r2, t)
    requires Unmapped(r0, t, r1, t, first, k) && Unmapped(r1, t, r2, t, first + k, 1)
    ensures Unmapped(r0, t, r2, t, first, k + 1)
  {
    forall n: nat | n < MAXPAGES
      ensures Lookup(r2, t, n) == if first <= n < first + k + 1 then 0 else Lookup(r0, t, n)
    {
      assert Lookup(r1, t, n) == Lookup(r1, t, n);
    }
  }

  lemma LookupIs(ram: Ram, t: Tree, n: nat)
    requires Good(ram, t)
    ensures Via(ram, t, n, 0).0 ==>
              var x := Via(ram, t, n, 0).1;
              x in ram && Index(0, n) < 512 && Lookup(ram, t, n) == ram[x][Index(0, n)]
    ensures !Via(ram, t, n, 0).0 ==> Lookup(ram, t, n) == 0
    ensures if Present(Lookup(ram, t, n)) then Leaf(Lookup(ram, t, n)) else Lookup(ram, t, n) == 0
  {
    if Via(ram, t, n, 0).0 {
      assert DownOk(ram, t, Via(ram, t, n, 0).1, Index(0, n));
    }
  }

  /** A page outside the tree may be overwritten. */
  lemma OtherPage(ram: Ram, ram': Ram, t: Tree, p: nat)
    requires Good(ram, t) && p !in t.owner && ram'.Keys == ram.Keys && forall x :: x in ram && x != p ==>
             ram'[x] == ram[x]
    ensures Good(ram', t) && SameMap(ram, t, ram', t)
  {
    assert forall x :: x in t.owner ==> x in ram;
    TreeFrame(ram, ram', t);
    forall n: nat | n < MAXPAGES
      ensures Lookup(ram', t, n) == Lookup(ram, t, n)
    {
      SamePages(ram, ram', t, n, 0);
    }
  }

  lemma KeepApart(t: Tree, ram: Ram, p: nat, free: seq<nat>)
    requires Apart(t, free) && p !in t.owner
    ensures Apart(t, [p] + free)
  {
  }

  lemma TreeRoot(ram: Ram, t: Tree, n: nat)
    requires Good(ram, t)
    ensures Via(ram, t, n, 2) == (true, t.root)
  {
  }

  lemma StartWalk(ram: Ram, free: seq<nat>, t: Tree)
    requires Good(ram, t)
    ensures Evolved(ram, free, t, ram, free, t) && SameMap(ram, t, ram, t) && KeepsPaths(ram, t, ram, t)
  {
  }

  /** A new page-table page changes neither the flat map nor the paths there were. */
  lemma GrowKeeps(ram: Ram, t: Tree, x: nat, i: nat, y: nat)
    requires Good(ram, t) && x in t.owner && t.owner[x].level > 0 && i < Fanout(t, x) && y !in t.owner
             && !Present(ram[x][i])
    ensures var ram', t' := Grow(ram, x, i, y), GrowTree(t, x, i, y);
            Good(ram', t') && SameMap(ram, t, ram', t') && KeepsPaths(ram, t, ram', t')
  {
    hide Lookup, Via;
    GrowGood(ram, t, x, i, y);
    forall n: nat | n < MAXPAGES
      ensures Lookup(Grow(ram, x, i, y), GrowTree(t, x, i, y), n) == Lookup(ram, t, n)
    {
      GrowLookup(ram, t, x, i, y, n);
    }
    forall n: nat, l: nat | l <= 2 && Via(ram, t, n, l).0
      ensures Via(Grow(ram, x, i, y), GrowTree(t, x, i, y), n, l) == Via(ram, t, n, l)
    {
      GrowVia(ram, t, x, i, y, n, l);
    }
  }

  lemma GrowEvolved(r0: Ram, f0: seq<nat>, t: Tree, r1: Ram, f1: seq<nat>, x: nat, i: nat, y: nat)
    requires Good(r0, t) && Apart(t, f0) && x in t.owner && t.owner[x].level > 0 && i < Fanout(t, x)
             && !Present(r0[x][i])
    requires f0 == [y] + f1 && y !in f1 && y in r0 && r1.Keys == r0.Keys && Runs(r1, f1)
    requires (forall p :: p in f1 ==> p in r1) && forall p :: p in r0 && p != y ==> r1[p] == r0[p]
    ensures var r, t' := Grow(r0, x, i, y), GrowTree(t, x, i, y);
            && x in r1 && x != y && r == r1[y := ZeroPage()][x := r1[x][i := MakePte(y, 0)]]
            && Evolved(r0, f0, t, r, f1, t') && Apart(t', f1) && Runs(r, f1) && r.Keys == r0.Keys
            && Present(r[x][i]) && Ppn(r[x][i]) == y && y in t'.owner
            && forall z :: z in t.owner ==> z in t'.owner && t'.owner[z] == t.owner[z]
  {
    hide Good, Runs, Lookup, Via;
    EntryIs(r0, t, x, i);
    assert f0[0] == y;
    PteRoundTrip(y, 0);
    var r := Grow(r0, x, i, y);
    assert r == r1[y := ZeroPage()][x := r1[x][i := MakePte(y, 0)]];
    RunsKept(r1, r, f1);
    assert Pages(f0) == {y} + Pages(f1);
  }

  lemma EntryIs(ram: Ram, t: Tree, x: nat, i: nat)
    requires Good(ram, t) && x in t.owner && i < 512
    ensures x in ram && DownOk(ram, t, x, i)
  {
    assert DownOk(ram, t, x, i);
  }

  /** A zeroed page is the root of an empty tree. */
  lemma EmptyTree(ram: Ram, root: nat)
    requires root in ram && ram[root] == ZeroPage()
    ensures var t := Tree(root, map[root := Node(2, 0, 0)]);
            && Good(ram, t)
            && forall n: nat {:trigger Lookup(ram, t, n)} :: n < MAXPAGES ==> Lookup(ram, t, n) == 0
  {
    hide Lookup;
    var t := Tree(root, map[root := Node(2, 0, 0)]);
    forall x, i: nat | x in t.owner && i < 512
      ensures DownOk(ram, t, x, i)
    {
    }
    forall n: nat | n < MAXPAGES
      ensures Lookup(ram, t, n) == 0
    {
      NoPath(ram, t, n, 2);
      LookupIs(ram, t, n);
    }
  }

  lemma NoPath(ram: Ram, t: Tree, n: nat, level: nat)
    requires Good(ram, t) && 1 <= level <= 2 && Via(ram, t, n, level).0
    requires var x := Via(ram, t, n, level).1; !Present(ram[x][Index(level, n)])
    ensures !Via(ram, t, n, 0).0
  {
    assert !Via(ram, t, n, level - 1).0;
  }
}
