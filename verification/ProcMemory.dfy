/** proc_pagetable, growproc, fork's copy and proc_freepagetable of proc.c: who owns which physical
    page.  Every page is free, or part of one page table, or holds one page of one process, or is
    the kernel's; all steps keep it so. */
module ProcMemory {
  import opened Common
  import opened PageTable
  import opened Vm
  import opened UserCopy

  /** The two pages at the top of every address space, by page number. */
  const TRAMPOLINE: nat := MAXPAGES - 1
  const TRAPFRAME: nat := MAXPAGES - 2

  /** The memory of one process: its page table, and which of its pages each frame holds. */
  datatype Account = None | Account(t: Tree, user: map<nat, nat>)

  /** All processes, the pages the kernel keeps for itself, and all pages there are. */
  datatype Ledger = Ledger(procs: seq<Account>, kernel: set<nat>, all: set<nat>)

  function Held(a: Account): set<nat> { if a.None? then {} else a.t.owner.Keys + a.user.Keys }

  predicate Owned(procs: seq<Account>, p: nat) { exists i :: 0 <= i < |procs| && p in Held(procs[i]) }

  /** Virtual page `n` is mapped to frame `p`. */
  ghost predicate Maps(ram: Ram, t: Tree, n: nat, p: nat)
    requires Good(ram, t)
  {
    n < MAXPAGES && Present(Lookup(ram, t, n)) && Ppn(Lookup(ram, t, n)) == p
  }

  /** `user` lists what is mapped below the trapframe; above it are pages of the kernel, closed to
      user code. */
  ghost predicate Mine(ram: Ram, a: Account, kernel: set<nat>) {
    a.Account? ==>
      && Good(ram, a.t) && a.t.owner.Keys !! a.user.Keys
      && (forall p {:trigger a.user[p]} :: p in a.user ==> a.user[p] < TRAPFRAME && Maps(ram, a.t, a.user[p], p))
      && (forall n: nat, p: nat {:trigger Maps(ram, a.t, n, p)} :: Maps(ram, a.t, n, p) ==>
            if n < TRAPFRAME then p in a.user && a.user[p] == n
            else p in kernel && !UserPage(Lookup(ram, a.t, n)))
  }

  ghost predicate Accounted(ram: Ram, free: seq<nat>, l: Ledger) {
    && l.all <= ram.Keys && Pages(free) !! l.kernel
    && (forall i {:trigger l.procs[i]} :: 0 <= i < |l.procs| ==>
          Mine(ram, l.procs[i], l.kernel) && Held(l.procs[i]) !! Pages(free) + l.kernel)
    && (forall i, j {:trigger l.procs[i], l.procs[j]} :: 0 <= i < j < |l.procs| ==>
       Held(l.procs[i]) !! Held(l.procs[j]))
    && (forall p {:trigger p in l.all} :: p in l.all <==> p in Pages(free) + l.kernel || Owned(l.procs, p))
  }

  function Set(l: Ledger, i: nat, a: Account): Ledger
    requires i < |l.procs|
  {
    l.(procs := l.procs[i := a])
  }

  /** The other processes see what they saw. */
  ghost predicate OthersSee(r0: Ram, r: Ram, l: Ledger, i: nat) {
    forall j: nat, va: nat {:trigger SeenBy(r, l, j, va)} :: j < |l.procs| && j != i ==>
           SeenBy(r, l, j, va) == SeenBy(r0, l, j, va)
  }

  ghost function SeenBy(ram: Ram, l: Ledger, j: nat, va: nat): Seen
    requires j < |l.procs|
  {
    var a := l.procs[j];
    if a.Account? && Good(ram, a.t) then UserAt(ram, a.t, va) else Nothing
  }

  // ----- one process changes -----

  /** `a'` and the free list have what `a` and the free list had, and nothing else was written. */
  ghost predicate Exchanged(r0: Ram, f0: seq<nat>, a: Account, r: Ram, f: seq<nat>, a': Account) {
    && r.Keys == r0.Keys && Held(a') !! Pages(f) && Held(a') + Pages(f) == Held(a) + Pages(f0)
    && forall p :: p in r0 && p !in Pages(f0) && p !in Held(a) ==> r[p] == r0[p]
  }

  lemma MineFrame(r0: Ram, r: Ram, a: Account, kernel: set<nat>)
    requires Mine(r0, a, kernel) && a.Account? && forall p :: p in Held(a) ==> p in r0 && p in r && r[p] == r0[p]
    ensures Mine(r, a, kernel) && forall va: nat {:trigger UserAt(r, a.t, va)} ::
            UserAt(r, a.t, va) == UserAt(r0, a.t, va)
  {
    hide Good, Lookup, PageByte;
    assert forall x :: x in a.t.owner ==> x in Held(a);
    TreeFrame(r0, r, a.t);
    forall n: nat
      ensures Lookup(r, a.t, n) == Lookup(r0, a.t, n)
    {
      SameLookup(r0, r, a.t, n);
    }
    forall n: nat, p: nat
      ensures Maps(r, a.t, n, p) == Maps(r0, a.t, n, p)
    {
      assert Lookup(r, a.t, n) == Lookup(r0, a.t, n);
    }
    forall va: nat
      ensures UserAt(r, a.t, va) == UserAt(r0, a.t, va)
    {
      var e := Lookup(r0, a.t, va / PGSIZE);
      assert Lookup(r, a.t, va / PGSIZE) == e;
      if va < MAXVA && UserPage(e) {
        assert Maps(r0, a.t, va / PGSIZE, Ppn(e));
        assert Ppn(e) in Held(a);
      }
    }
  }

  /** What one process does with its own memory and the free list keeps the accounts of all. */
  lemma OneChanges(r0: Ram, f0: seq<nat>, l: Ledger, i: nat, r: Ram, f: seq<nat>, a': Account)
    requires Accounted(r0, f0, l) && i < |l.procs| && Mine(r, a', l.kernel) && Exchanged(r0, f0, l.procs[i], r, f, a')
    ensures Accounted(r, f, Set(l, i, a')) && OthersSee(r0, r, l, i)
  {
    hide Good, Lookup, Mine, UserAt, Maps;
    var a, l' := l.procs[i], Set(l, i, a');
    Shared(r0, f0, l, i, f, a');
    forall j: nat | j < |l.procs| && j != i
      ensures Mine(r, l.procs[j], l.kernel) && Held(l.procs[j]) !! Held(a') + Pages(f) + l.kernel
      ensures forall va: nat :: SeenBy(r, l, j, va) == SeenBy(r0, l, j, va)
    {
      OtherSees(r0, f0, l, i, r, f, a', j);
    }
    forall j, k | 0 <= j < k < |l'.procs|
      ensures Held(l'.procs[j]) !! Held(l'.procs[k])
    {
      if j == i || k == i { assert l'.procs[i] == a'; }
      assert Held(l.procs[j]) !! Held(l.procs[k]);
    }
    forall j | 0 <= j < |l'.procs|
      ensures Mine(r, l'.procs[j], l.kernel) && Held(l'.procs[j]) !! Pages(f) + l.kernel
    {
      assert Held(a) !! Pages(f0) + l.kernel;
    }
  }

  lemma OtherSees(r0: Ram, f0: seq<nat>, l: Ledger, i: nat, r: Ram, f: seq<nat>, a': Account, j: nat)
    requires Accounted(r0, f0, l) && i < |l.procs| && j < |l.procs| && j != i && Exchanged(r0, f0, l.procs[i], r, f, a')
    ensures Mine(r, l.procs[j], l.kernel) && Held(l.procs[j]) !! Held(a') + Pages(f) + l.kernel
    ensures forall va: nat {:trigger SeenBy(r, l, j, va)} :: SeenBy(r, l, j, va) == SeenBy(r0, l, j, va)
  {
    hide Good, Lookup, Mine, UserAt, Maps;
    var b := l.procs[j];
    assert Held(b) !! Held(l.procs[i]) by { if i < j { assert l.procs[i] == l.procs[i]; } }
    assert Held(b) !! Pages(f0) + l.kernel;
    forall p | p in Held(b)
      ensures p in r0 && p in r && r[p] == r0[p] && p !in Held(a') + Pages(f)
    {
      assert Owned(l.procs, p);
      assert p in l.all;
    }
    if b.Account? {
      assert Good(r0, b.t) by { MineGood(r0, b, l.kernel); }
      MineFrame(r0, r, b, l.kernel);
      assert Good(r, b.t) by { MineGood(r, b, l.kernel); }
    } else {
      NoneIsMine(r, b, l.kernel);
    }
  }

  lemma MineGood(ram: Ram, a: Account, kernel: set<nat>)
    requires Mine(ram, a, kernel) && a.Account?
    ensures Good(ram, a.t) && a.t.owner.Keys !! a.user.Keys
  {
    hide Good;
  }

  lemma NoneIsMine(ram: Ram, a: Account, kernel: set<nat>)
    requires a.None?
    ensures Mine(ram, a, kernel)
  {
  }

  /** The pages there are are the same as before. */
  lemma Shared(r0: Ram, f0: seq<nat>, l: Ledger, i: nat, f: seq<nat>, a': Account)
    requires Accounted(r0, f0, l) && i < |l.procs| && Held(a') + Pages(f) == Held(l.procs[i]) + Pages(f0)
    ensures Pages(f) !! l.kernel
    ensures forall p {:trigger p in l.all} :: p in l.all <==> p in Pages(f) + l.kernel || Owned(l.procs[i := a'], p)
  {
    hide Mine;
    var procs' := l.procs[i := a'];
    forall p
      ensures p in l.all <==> p in Pages(f) + l.kernel || Owned(procs', p)
    {
      if p in Held(a') { assert procs'[i] == a'; }
      if p in Held(l.procs[i]) { assert Owned(l.procs, p); }
      if Owned(l.procs, p) {
        var j :| 0 <= j < |l.procs| && p in Held(l.procs[j]);
        assert j != i ==> procs'[j] == l.procs[j];
      }
      if Owned(procs', p) {
        var j :| 0 <= j < |procs'| && p in Held(procs'[j]);
        assert j != i ==> procs'[j] == l.procs[j];
      }
    }
    assert Held(l.procs[i]) !! Pages(f0) + l.kernel;
  }

  // ----- what each routine of vm.c does to the accounts of one process -----

  ghost function Place(data: seq<nat>, p: nat): (k: nat)
    requires p in data
    ensures k < |data| && data[k] == p
  {
    var k: nat :| k < |data| && data[k] == p; k
  }

  /** The frames of `data` hold pages `first`, `first` + 1, ... */
  ghost function Numbered(data: seq<nat>, first: nat): map<nat, nat> {
    map p | p in data :: first + Place(data, p)
  }

  /** `user` without what holds pages `first` up to `first` + `k`. */
  function Cut(user: map<nat, nat>, first: nat, k: nat): map<nat, nat> {
    map p | p in user && !(first <= user[p] < first + k) :: user[p]
  }

  lemma CreateAccounts(r0: Ram, f0: seq<nat>, r: Ram, f: seq<nat>, t: Tree, kernel: set<nat>)
    requires Good(r, t) && f0 == [t.root] + f && t.root !in f && t.owner.Keys == {t.root} && r.Keys == r0.Keys
    requires forall n: nat {:trigger Lookup(r, t, n)} :: n < MAXPAGES ==> Lookup(r, t, n) == 0
    requires forall x :: x in r && x != t.root ==> r[x] == r0[x]
    ensures Mine(r, Account(t, map[]), kernel) && Exchanged(r0, f0, None, r, f, Account(t, map[]))
  {
    hide Good, Lookup;
    assert Pages(f0) == {t.root} + Pages(f);
  }

  /** Page-table pages are added, and the flat map stays. */
  lemma SameAccounts(r0: Ram, f0: seq<nat>, t: Tree, user: map<nat, nat>, kernel: set<nat>, r: Ram, f: seq<nat>,
                     t': Tree)
    requires Mine(r0, Account(t, user), kernel) && Held(Account(t, user)) !! Pages(f0)
    requires Good(r, t') && Apart(t', f) && Evolved(r0, f0, t, r, f, t') && SameMap(r0, t, r, t')
    ensures Mine(r, Account(t', user), kernel) && Exchanged(r0, f0, Account(t, user), r, f, Account(t', user))
  {
    hide Good, Lookup;
    forall n: nat, p: nat
      ensures Maps(r, t', n, p) == Maps(r0, t, n, p)
    {
      if n < MAXPAGES { assert Lookup(r, t', n) == Lookup(r0, t, n); }
    }
    EvolvedHeld(r0, f0, t, user, r, f, t');
    forall n: nat, p: nat | Maps(r, t', n, p)
      ensures if n < TRAPFRAME then p in user && user[p] == n else p in kernel && !UserPage(Lookup(r, t', n))
    {
      assert Maps(r0, t, n, p) && Lookup(r, t', n) == Lookup(r0, t, n);
    }
  }

  lemma EvolvedHeld(r0: Ram, f0: seq<nat>, t: Tree, user: map<nat, nat>, r: Ram, f: seq<nat>, t': Tree)
    requires t.owner.Keys !! user.Keys && t.owner.Keys + user.Keys !! Pages(f0)
    requires Apart(t', f) && Evolved(r0, f0, t, r, f, t')
    ensures t'.owner.Keys !! user.Keys && Exchanged(r0, f0, Account(t, user), r, f, Account(t', user))
  {
    forall p | p in user
      ensures p !in t'.owner && p !in Pages(f)
    {
      assert p !in Pages(f) + t'.owner.Keys;
    }
  }

  /** uvmalloc and uvmcopy: new frames for the pages from `first` on. */
  lemma FillAccounts(r0: Ram, f0: seq<nat>, t: Tree, user: map<nat, nat>, kernel: set<nat>, r: Ram, f: seq<nat>,
                     t': Tree,
                     first: nat, data: seq<nat>, perms: seq<nat>, contents: seq<Page>)
    requires Mine(r0, Account(t, user), kernel) && Held(Account(t, user)) !! Pages(f0)
    requires Fill(r0, f0, t, r, f, t', first, data, perms, contents) && Apart(t', f) && first + |data| <= TRAPFRAME
    requires forall n: nat :: first <= n < first + |data| ==> !Present(Lookup(r0, t, n))
    ensures var a, a' := Account(t, user), Account(t', user + Numbered(data, first));
            Mine(r, a', kernel) && Exchanged(r0, f0, a, r, f, a')
  {
    hide Good, Lookup, Maps;
    var user' := user + Numbered(data, first);
    FillHeld(r0, f0, t, user, r, f, t', first, data);
    forall n: nat, p: nat | Maps(r, t', n, p)
      ensures if n < TRAPFRAME then p in user' && user'[p] == n else p in kernel && !UserPage(Lookup(r, t', n))
    {
      FillMaps(r0, f0, t, r, f, t', first, data, perms, contents, n, p);
    }
    forall p | p in user'
      ensures user'[p] < TRAPFRAME && Maps(r, t', user'[p], p)
    {
      var n := user'[p];
      FillMaps(r0, f0, t, r, f, t', first, data, perms, contents, n, p);
    }
  }

  /** What is mapped after filling. */
  lemma FillMaps(r0: Ram, f0: seq<nat>, t: Tree, r: Ram, f: seq<nat>, t': Tree,
                 first: nat, data: seq<nat>, perms: seq<nat>, contents: seq<Page>, n: nat, p: nat)
    requires Fill(r0, f0, t, r, f, t', first, data, perms, contents) && first + |data| <= TRAPFRAME
    requires forall k: nat :: first <= k < first + |data| ==> !Present(Lookup(r0, t, k))
    ensures if first <= n < first + |data| then Maps(r, t', n, p) <==> p in data && Place(data, p) == n - first
            else Maps(r, t', n, p) <==> Maps(r0, t, n, p)
    ensures Maps(r0, t, n, p) ==> Maps(r, t', n, p) && Lookup(r, t', n) == Lookup(r0, t, n)
  {
    hide Good, Lookup, Took;
    if first <= n < first + |data| {
      PteRoundTrip(data[n - first], perms[n - first]);
      assert Lookup(r, t', n) == MakePte(data[n - first], perms[n - first]);
    } else if n < MAXPAGES {
      assert Lookup(r, t', n) == Lookup(r0, t, n);
    }
  }

  lemma FillHeld(r0: Ram, f0: seq<nat>, t: Tree, user: map<nat, nat>, r: Ram, f: seq<nat>, t': Tree, first: nat,
                 data: seq<nat>)
    requires t.owner.Keys !! user.Keys && t.owner.Keys + user.Keys !! Pages(f0)
    requires Apart(t', f) && Took(r0, f0, t, r, f, t', data) && Backed(r, t', f, data)
    ensures Numbered(data, first).Keys == Pages(data) && Pages(data) !! user.Keys
    ensures var user' := user + Numbered(data, first);
            t'.owner.Keys !! user'.Keys && Exchanged(r0, f0, Account(t, user), r, f, Account(t', user'))
  {
    var user' := user + Numbered(data, first);
    assert user'.Keys == user.Keys + Pages(data);
    forall p | p in user
      ensures p !in t'.owner && p !in Pages(f) && p !in data
    {
      assert p !in Pages(f) + t'.owner.Keys + Pages(data);
    }
  }

  /** uvmunmap with freeing, and uvmdealloc. */
  lemma UnmapAccounts(r0: Ram, f0: seq<nat>, t: Tree, user: map<nat, nat>, kernel: set<nat>, r: Ram, f: seq<nat>,
                      first: nat, data: seq<nat>)
    requires Mine(r0, Account(t, user), kernel) && Held(Account(t, user)) !! Pages(f0) && first + |data| <= TRAPFRAME
    requires Mapping(r0, t, first, data) && Good(r, t) && Unmapped(r0, t, r, t, first, |data|)
    requires r.Keys == r0.Keys && Pages(f) == Pages(f0) + Pages(data)
    requires forall p :: p in r && p !in t.owner && p !in data ==> r[p] == r0[p]
    ensures var a, a' := Account(t, user), Account(t, Cut(user, first, |data|));
            Mine(r, a', kernel) && Exchanged(r0, f0, a, r, f, a')
  {
    hide Good, Lookup;
    var user' := Cut(user, first, |data|);
    forall p
      ensures p in data <==> p in user && first <= user[p] < first + |data|
    {
      if p in data {
        var k :| 0 <= k < |data| && data[k] == p;
        assert Maps(r0, t, first + k, p);
      }
      if p in user && first <= user[p] < first + |data| {
        assert Maps(r0, t, user[p], p) && data[user[p] - first] == p;
      }
    }
    assert user.Keys == user'.Keys + Pages(data);
    forall n: nat, p: nat | Maps(r, t, n, p)
      ensures if n < TRAPFRAME then p in user' && user'[p] == n else p in kernel && !UserPage(Lookup(r, t, n))
    {
      assert !(first <= n < first + |data|);
      assert Lookup(r, t, n) == Lookup(r0, t, n);
      assert Maps(r0, t, n, p);
    }
    forall p | p in user'
      ensures user'[p] < TRAPFRAME && Maps(r, t, user'[p], p)
    {
      assert Maps(r0, t, user[p], p);
      assert Lookup(r, t, user[p]) == Lookup(r0, t, user[p]);
    }
  }

  /** uvmfree, once nothing of the kernel is mapped. */
  lemma FreeAccounts(r0: Ram, f0: seq<nat>, t: Tree, user: map<nat, nat>, kernel: set<nat>, r: Ram, f: seq<nat>,
                     data: seq<nat>)
    requires Mine(r0, Account(t, user), kernel) && Mapping(r0, t, 0, data) && |data| <= TRAPFRAME
    requires forall n: nat :: |data| <= n < MAXPAGES ==> !Present(Lookup(r0, t, n))
    requires r.Keys == r0.Keys && Pages(f) == Pages(f0) + Pages(data) + t.owner.Keys
    requires forall p :: p in r && p !in t.owner && p !in data ==> r[p] == r0[p]
    ensures Exchanged(r0, f0, Account(t, user), r, f, None)
  {
    hide Good, Lookup;
    forall p
      ensures p in data <==> p in user
    {
      if p in data {
        var k :| 0 <= k < |data| && data[k] == p;
        assert Maps(r0, t, k, p);
      }
      if p in user {
        assert Maps(r0, t, user[p], p) && data[user[p]] == p;
      }
    }
  }

  /** One of the kernel's pages is mapped above the user's. */
  lemma MapAccounts(r0: Ram, f0: seq<nat>, t: Tree, user: map<nat, nat>, kernel: set<nat>, r: Ram, f: seq<nat>,
                    t': Tree,
                    n: nat, done: nat, p: nat, perm: nat)
    requires Mine(r0, Account(t, user), kernel) && Held(Account(t, user)) !! Pages(f0)
    requires Good(r, t') && Apart(t', f) && Evolved(r0, f0, t, r, f, t')
    requires TRAPFRAME <= n < MAXPAGES && done <= 1 && p in kernel && perm < 1024 && perm / 16 % 2 == 0
    requires Mapped(r0, t, r, t', n, done, p, perm)
    ensures Mine(r, Account(t', user), kernel) && Exchanged(r0, f0, Account(t, user), r, f, Account(t', user))
  {
    hide Good, Lookup;
    EvolvedHeld(r0, f0, t, user, r, f, t');
    PteRoundTrip(p, perm);
    UserBit(MakePte(p, perm));
    forall m: nat, q: nat | Maps(r, t', m, q)
      ensures if m < TRAPFRAME then q in user && user[q] == m else q in kernel && !UserPage(Lookup(r, t', m))
    {
      if m == n && done == 1 {
        assert Lookup(r, t', m) == MakePte(p, perm);
      } else {
        assert Lookup(r, t', m) == Lookup(r0, t, m);
        assert Maps(r0, t, m, q);
      }
    }
    forall q | q in user
      ensures Maps(r, t', user[q], q)
    {
      assert Maps(r0, t, user[q], q) && Lookup(r, t', user[q]) == Lookup(r0, t, user[q]);
    }
  }

  /** The kernel's page `n` is unmapped, and not freed. */
  lemma DropAccounts(r0: Ram, f0: seq<nat>, t: Tree, user: map<nat, nat>, kernel: set<nat>, r: Ram, f: seq<nat>, n: nat)
    requires Mine(r0, Account(t, user), kernel) && Held(Account(t, user)) !! Pages(f0)
    requires Good(r, t) && TRAPFRAME <= n && Unmapped(r0, t, r, t, n, 1) && r.Keys == r0.Keys && Pages(f) == Pages(f0)
    requires forall p :: p in r && p !in t.owner ==> r[p] == r0[p]
    ensures Mine(r, Account(t, user), kernel) && Exchanged(r0, f0, Account(t, user), r, f, Account(t, user))
  {
    hide Good, Lookup;
    forall m: nat, q: nat | Maps(r, t, m, q)
      ensures if m < TRAPFRAME then q in user && user[q] == m else q in kernel && !UserPage(Lookup(r, t, m))
    {
      assert Lookup(r, t, m) == Lookup(r0, t, m);
      assert Maps(r0, t, m, q);
    }
    forall q | q in user
      ensures Maps(r, t, user[q], q)
    {
      assert Maps(r0, t, user[q], q) && Lookup(r, t, user[q]) == Lookup(r0, t, user[q]);
    }
  }

  lemma ExchangedTrans(r0: Ram, f0: seq<nat>, a0: Account, r1: Ram, f1: seq<nat>, a1: Account, r2: Ram, f2: seq<nat>,
                       a2: Account)
    requires Exchanged(r0, f0, a0, r1, f1, a1) && Exchanged(r1, f1, a1, r2, f2, a2)
    ensures Exchanged(r0, f0, a0, r2, f2, a2)
  {
    forall p | p in r0 && p !in Pages(f0) && p !in Held(a0)
      ensures r2[p] == r0[p]
    {
      assert p !in Held(a1) + Pages(f1);
    }
  }

  // ----- what the accounts say of one process -----

  /** A process of the ledger: everything the routines of vm.c ask of their callers. */
  lemma HasSpace(ram: Ram, free: seq<nat>, l: Ledger, i: nat)
    requires Accounted(ram, free, l) && i < |l.procs| && l.procs[i].Account?
    ensures var a := l.procs[i];
            && Good(ram, a.t) && Apart(a.t, free) && Space(ram, a.t, free) && a.t.owner.Keys !! a.user.Keys
            && Held(a) !! Pages(free) && Held(a) <= ram.Keys && Mine(ram, a, l.kernel)
  {
    hide Good, Lookup;
    var a := l.procs[i];
    assert Held(a) !! Pages(free) + l.kernel;
    forall p | p in Held(a)
      ensures p in ram && p !in free
    {
      assert Owned(l.procs, p);
      assert p in l.all && p !in Pages(free);
    }
    forall n: nat, p: nat | Frame(ram, a.t, n, p)
      ensures p in a.user && a.user[p] == n && p in Held(a) && p !in a.t.owner
    {
      assert Maps(ram, a.t, n, p);
    }
    assert forall p :: p in a.t.owner ==> p in Held(a);
  }

  /** Two processes share no page. */
  lemma TwoApart(ram: Ram, free: seq<nat>, l: Ledger, i: nat, j: nat)
    requires Accounted(ram, free, l) && i < |l.procs| && j < |l.procs| && i != j
    ensures Held(l.procs[i]) !! Held(l.procs[j])
  {
    hide Mine;
    if i < j { assert Held(l.procs[i]) !! Held(l.procs[j]); } else { assert Held(l.procs[j]) !! Held(l.procs[i]); }
  }

  /** Exactly the first `k` pages are mapped, and the two at the top. */
  ghost predicate Sized(ram: Ram, a: Account, k: nat) {
    a.Account? && Good(ram, a.t) && k <= TRAPFRAME &&
    forall n: nat {:trigger Lookup(ram, a.t, n)} :: n < MAXPAGES ==>
           (Present(Lookup(ram, a.t, n)) <==> n < k || n >= TRAPFRAME)
  }

  /** The frames of pages `first` up to `first` + `k`. */
  ghost function Frames(ram: Ram, t: Tree, first: nat, k: nat): seq<nat>
    requires Good(ram, t)
  {
    seq<nat>(k, (j: nat) => Ppn(Lookup(ram, t, first + j)))
  }

  lemma FramesMapped(ram: Ram, free: seq<nat>, a: Account, kernel: set<nat>, first: nat, k: nat)
    requires Mine(ram, a, kernel) && a.Account? && Held(a) !! Pages(free) && Held(a) <= ram.Keys
    requires first + k <= TRAPFRAME && forall n: nat :: first <= n < first + k ==> Present(Lookup(ram, a.t, n))
    ensures var data := Frames(ram, a.t, first, k); Mapping(ram, a.t, first, data) && Backed(ram, a.t, free, data)
    ensures forall p :: p in Frames(ram, a.t, first, k) ==> p in a.user
  {
    hide Good, Lookup;
    var data := Frames(ram, a.t, first, k);
    forall j: nat | j < k
      ensures data[j] in a.user && a.user[data[j]] == first + j && data[j] in Held(a) && data[j] !in free
    {
      assert Maps(ram, a.t, first + j, data[j]);
      assert data[j] !in Pages(free);
    }
  }

  /** An address is seen as before if its page is mapped as before and its frame, if any, was
      not written. */
  lemma SeesSame(r0: Ram, a: Account, kernel: set<nat>, r: Ram, t: Tree, va: nat)
    requires Mine(r0, a, kernel) && a.Account? && Good(r, t) && r.Keys == r0.Keys
    requires va < MAXVA ==> Lookup(r, t, va / PGSIZE) == Lookup(r0, a.t, va / PGSIZE)
    requires forall p :: p in a.user && a.user[p] == va / PGSIZE && p in r0 ==> r[p] == r0[p]
    ensures UserAt(r, t, va) == UserAt(r0, a.t, va)
  {
    hide Good, Lookup, PageByte;
    if va < MAXVA && UserPage(Lookup(r, t, va / PGSIZE)) {
      assert Maps(r0, a.t, va / PGSIZE, Ppn(Lookup(r, t, va / PGSIZE)));
    }
  }

  /** The process had `k0` pages and has `k`: new ones are zero, those given up are gone, and
      the rest reads as before. */
  ghost predicate Resized(r0: Ram, t0: Tree, k0: nat, r: Ram, t: Tree, k: nat)
    requires Good(r0, t0) && Good(r, t)
  {
    forall va: nat {:trigger UserAt(r, t, va)} ::
      UserAt(r, t, va) ==
        if k0 * PGSIZE <= va < k * PGSIZE then Sees(0)
        else if k * PGSIZE <= va < k0 * PGSIZE then Nothing
        else UserAt(r0, t0, va)
  }

  lemma InPages(va: nat, k: nat)
    ensures va < k * PGSIZE <==> va / PGSIZE < k
  {
  }

  lemma SameResized(r0: Ram, f0: seq<nat>, a: Account, kernel: set<nat>, r: Ram, f: seq<nat>, t: Tree, k: nat)
    requires Mine(r0, a, kernel) && Sized(r0, a, k) && Held(a) !! Pages(f0)
    requires Good(r, t) && Evolved(r0, f0, a.t, r, f, t) && SameMap(r0, a.t, r, t)
    ensures Sized(r, Account(t, a.user), k) && Resized(r0, a.t, k, r, t, k)
  {
    hide Good, Lookup;
    forall n: nat | n < MAXPAGES
      ensures Lookup(r, t, n) == Lookup(r0, a.t, n)
    {
    }
    forall va: nat
      ensures UserAt(r, t, va) == UserAt(r0, a.t, va)
    {
      assert va < MAXVA ==> va / PGSIZE < MAXPAGES;
      forall p | p in a.user && p in r0
        ensures r[p] == r0[p]
      {
        assert p in Held(a) && p !in Pages(f0);
      }
      SeesSame(r0, a, kernel, r, t, va);
    }
  }

  lemma FillResized(r0: Ram, f0: seq<nat>, a: Account, kernel: set<nat>, r: Ram, f: seq<nat>, t: Tree, first: nat,
                    data: seq<nat>, user': map<nat, nat>)
    requires Mine(r0, a, kernel) && Sized(r0, a, first) && Space(r0, a.t, f0) && first + |data| <= TRAPFRAME
    requires Fill(r0, f0, a.t, r, f, t, first, data, Same(USER_RWX, |data|), Same(ZeroPage(), |data|))
    ensures Sized(r, Account(t, user'), first + |data|) && Resized(r0, a.t, first, r, t, first + |data|)
  {
    hide Good, Lookup, Took, Backed, Space, UserAt;
    var perms, contents := Same(USER_RWX, |data|), Same(ZeroPage(), |data|);
    forall n: nat | n < MAXPAGES
      ensures Present(Lookup(r, t, n)) <==> n < first + |data| || n >= TRAPFRAME
    {
      if first <= n < first + |data| { PteRoundTrip(data[n - first], perms[n - first]); }
    }
    FillSpace(r0, f0, a.t, r, f, t, first, data, perms, contents);
    forall va: nat
      ensures UserAt(r, t, va) == if first * PGSIZE <= va < (first + |data|) * PGSIZE then Sees(0)
              else UserAt(r0, a.t, va)
    {
      InPages(va, first);
      InPages(va, first + |data|);
      if first <= va / PGSIZE < first + |data| { NewMemoryIsZero(r0, f0, a.t, r, f, t, first, data, va); }
    }
  }

  lemma UnmapResized(r0: Ram, a: Account, kernel: set<nat>, r: Ram, first: nat, data: seq<nat>, user': map<nat, nat>)
    requires Mine(r0, a, kernel) && Sized(r0, a, first + |data|) && Good(r, a.t) && r.Keys == r0.Keys
    requires Mapping(r0, a.t, first, data) && Unmapped(r0, a.t, r, a.t, first, |data|)
    requires forall p :: p in r && p !in a.t.owner && p !in data ==> r[p] == r0[p]
    ensures Sized(r, Account(a.t, user'), first) && Resized(r0, a.t, first + |data|, r, a.t, first)
  {
    hide Good, Lookup;
    forall n: nat | n < MAXPAGES
      ensures Present(Lookup(r, a.t, n)) <==> n < first || n >= TRAPFRAME
    {
      assert Lookup(r0, a.t, n) == Lookup(r0, a.t, n);
    }
    forall va: nat
      ensures UserAt(r, a.t, va) == if first * PGSIZE <= va < (first + |data|) * PGSIZE then Nothing
              else UserAt(r0, a.t, va)
    {
      var n := va / PGSIZE;
      InPages(va, first);
      InPages(va, first + |data|);
      assert va < MAXVA ==> n < MAXPAGES;
      if first <= n < first + |data| {
        assert Lookup(r, a.t, n) == 0;
      } else {
        forall p | p in a.user && a.user[p] == n && p in r0
          ensures r[p] == r0[p]
        {
          assert p in a.user.Keys && p !in a.t.owner.Keys;
          assert forall k: nat :: k < |data| ==> Maps(r0, a.t, first + k, data[k]);
        }
        SeesSame(r0, a, kernel, r, a.t, va);
      }
    }
  }

  // ----- growproc -----

  /** `i` is a process of the ledger, with `k` pages. */
  ghost predicate HasPages(ram: Ram, free: seq<nat>, l: Ledger, i: nat, k: nat) {
    Accounted(ram, free, l) && i < |l.procs| && l.procs[i].Account? && Sized(ram, l.procs[i], k)
  }

  /** The growing half of growproc: uvmalloc of the process's page table. */
  method GrowTo(m: Memory, root: nat, sz0: nat, end: nat, ghost l: Ledger, ghost i: nat)
    returns (sz: nat, ghost a': Account)
    requires m.Valid() && HasPages(m.ram, m.free, l, i, PageUp(sz0)) && root == l.procs[i].t.root
    requires sz0 < UINT && end < UINT && 0 < sz0 + end
    modifies m
    ensures m.Valid() && OthersSee(old(m.ram), m.ram, l, i) && a'.Account? && a'.t.root == root
    ensures var now := if sz == 0 then sz0 else sz;
            && HasPages(m.ram, m.free, Set(l, i, a'), i, PageUp(now))
            && Resized(old(m.ram), l.procs[i].t, PageUp(sz0), m.ram, a'.t, PageUp(now))
    ensures end < sz0 ==> sz == sz0 && m.ram == old(m.ram) && m.free == old(m.free)
    ensures end >= sz0 && sz != 0 ==> sz == end
    ensures sz == 0 ==> |old(m.free)| < 3 * (PageUp(end) - PageUp(sz0))
  {
    hide Good, Lookup, Accounted, Mine, Fill, Evolved, SameMap, Apart, Runs, RunAt, Distinct, Resized, Sized, Space,
         Held, Exchanged;
    hide Mapping, Backed, Unmapped, OthersSee, UserAt, Same, ZeroPage;
    HasSpace(m.ram, m.free, l, i);
    ghost var ok, t', data;
    StillMissing(m.ram, l.procs[i], PageUp(sz0));
    sz, ok, t', data := m.UvmAlloc(root, sz0, end, l.procs[i].t);
    a' := Grown(old(m.ram), old(m.free), l, i, sz0, end, m.ram, m.free, t', ok, data);
  }

  /** The shrinking half: uvmdealloc. */
  method ShrinkTo(m: Memory, root: nat, sz0: nat, end: nat, ghost l: Ledger, ghost i: nat)
    returns (sz: nat, ghost a': Account)
    requires m.Valid() && HasPages(m.ram, m.free, l, i, PageUp(sz0)) && root == l.procs[i].t.root
    modifies m
    ensures m.Valid() && OthersSee(old(m.ram), m.ram, l, i) && a'.Account? && a'.t.root == root
    ensures HasPages(m.ram, m.free, Set(l, i, a'), i, PageUp(sz))
            && Resized(old(m.ram), l.procs[i].t, PageUp(sz0), m.ram, a'.t, PageUp(sz))
    ensures sz == if end < sz0 then end else sz0
    ensures end >= sz0 ==> m.ram == old(m.ram) && m.free == old(m.free)
  {
    hide Good, Lookup, Accounted, Mine, Fill, Evolved, SameMap, Apart, Runs, RunAt, Distinct, Resized, Sized, Space,
         Held, Exchanged;
    hide Mapping, Backed, Unmapped, OthersSee, UserAt, Same, ZeroPage;
    HasSpace(m.ram, m.free, l, i);
    ghost var a := l.procs[i];
    ghost var data := if end < sz0 then Frames(m.ram, a.t, PageUp(end), PageUp(sz0) - PageUp(end)) else [];
    StillPresent(m.ram, m.free, a, l.kernel, PageUp(sz0), PageUp(end));
    sz := m.UvmDealloc(root, sz0, end, a.t, data);
    a' := Shrunk(old(m.ram), old(m.free), l, i, sz0, end, m.ram, m.free, data);
  }

  /** growproc, for the process `i` of `sz0` bytes.  When it answers 0 the process has the size asked
      for if and only if that fits an unsigned int; if it does not, nothing has been done. */
  method Growproc(m: Memory, root: nat, sz0: nat, n: int, ghost l: Ledger, ghost i: nat)
    returns (r: int, sz: nat, ghost a': Account)
    requires m.Valid() && HasPages(m.ram, m.free, l, i, PageUp(sz0)) && root == l.procs[i].t.root
    requires sz0 < UINT && -0x8000_0000 <= n < 0x8000_0000
    modifies m
    ensures m.Valid() && HasPages(m.ram, m.free, Set(l, i, a'), i, PageUp(sz)) && a'.t.root == root
    ensures OthersSee(old(m.ram), m.ram, l, i)
    ensures Resized(old(m.ram), l.procs[i].t, PageUp(sz0), m.ram, a'.t, PageUp(sz))
    ensures r == 0 || r == -1
    ensures r == 0 ==> (sz == sz0 + n <==> 0 <= sz0 + n < UINT)
    ensures !(0 <= sz0 + n < UINT) ==> r == 0 && sz == sz0 && m.ram == old(m.ram) && m.free == old(m.free)
    ensures r == -1 ==> sz == sz0 && 0 < n && |old(m.free)| < 3 * (PageUp(sz0 + n) - PageUp(sz0))
  {
    hide Good, Accounted, Mine, Resized, Sized, Space, OthersSee, Runs, RunAt;
    sz, r, a' := sz0, 0, l.procs[i];
    HasSpace(m.ram, m.free, l, i);
    if n > 0 {
      sz, a' := GrowTo(m, root, sz0, (sz0 + n) % UINT, l, i);
      if sz == 0 {
        return -1, sz0, a';
      }
    } else if n < 0 {
      sz, a' := ShrinkTo(m, root, sz0, (sz0 + n) % UINT, l, i);
    } else {
      SameIsResized(m.ram, l, i, PageUp(sz0));
    }
  }

  lemma SameIsResized(ram: Ram, l: Ledger, i: nat, k: nat)
    requires i < |l.procs| && l.procs[i].Account? && Good(ram, l.procs[i].t)
    ensures Resized(ram, l.procs[i].t, k, ram, l.procs[i].t, k) && OthersSee(ram, ram, l, i)
            && Set(l, i, l.procs[i]) == l
  {
    hide Good;
  }

  lemma StillMissing(ram: Ram, a: Account, k: nat)
    requires Sized(ram, a, k)
    ensures forall n: nat :: k <= n < TRAPFRAME ==> !Present(Lookup(ram, a.t, n))
  {
  }

  lemma StillPresent(ram: Ram, free: seq<nat>, a: Account, kernel: set<nat>, k: nat, first: nat)
    requires Sized(ram, a, k) && Mine(ram, a, kernel) && Held(a) !! Pages(free) && Held(a) <= ram.Keys
    ensures first <= k ==>
              var data := Frames(ram, a.t, first, k - first);
              Mapping(ram, a.t, first, data) && Backed(ram, a.t, free, data) && |data| == k - first
  {
    hide Good, Lookup;
    if first <= k { FramesMapped(ram, free, a, kernel, first, k - first); }
  }

  /** What uvmalloc did, in terms of the ledger. */
  lemma Grown(r0: Ram, f0: seq<nat>, l: Ledger, i: nat, sz0: nat, end: nat, r: Ram, f: seq<nat>, t': Tree, ok: bool,
              data: seq<nat>)
    returns (a': Account)
    requires HasPages(r0, f0, l, i, PageUp(sz0)) && PageUp(end) <= TRAPFRAME && Good(r, t') && Apart(t', f)
    requires end < sz0 ==> t' == l.procs[i].t && r == r0 && f == f0
    requires ok && end >= sz0 ==>
               && |data| == PageUp(end) - PageUp(sz0)
               && Fill(r0, f0, l.procs[i].t, r, f, t', PageUp(sz0), data, Same(USER_RWX, |data|),
                  Same(ZeroPage(), |data|))
    requires !ok ==> Evolved(r0, f0, l.procs[i].t, r, f, t') && SameMap(r0, l.procs[i].t, r, t')
    ensures var k := if ok && end >= sz0 then PageUp(end) else PageUp(sz0);
            && HasPages(r, f, Set(l, i, a'), i, k) && OthersSee(r0, r, l, i) && a'.t == t'
               && t'.root == l.procs[i].t.root
            && Resized(r0, l.procs[i].t, PageUp(sz0), r, t', k)
  {
    hide Good, Lookup, Accounted, Mine, Fill, SameMap, Apart, Resized, Space, Exchanged, OthersSee, UserAt, Same,
         ZeroPage;
    var a := l.procs[i];
    HasSpace(r0, f0, l, i);
    StillMissing(r0, a, PageUp(sz0));
    if !ok {
      a' := Account(t', a.user);
      SameAccounts(r0, f0, a.t, a.user, l.kernel, r, f, t');
      SameResized(r0, f0, a, l.kernel, r, f, t', PageUp(sz0));
      OneChanges(r0, f0, l, i, r, f, a');
    } else if end < sz0 {
      a' := a;
      SameIsResized(r0, l, i, PageUp(sz0));
    } else {
      a' := Account(t', a.user + Numbered(data, PageUp(sz0)));
      FillAccounts(r0, f0, a.t, a.user, l.kernel, r, f, t', PageUp(sz0), data, Same(USER_RWX, |data|),
        Same(ZeroPage(), |data|));
      FillResized(r0, f0, a, l.kernel, r, f, t', PageUp(sz0), data, a'.user);
      FillFacts(r0, f0, a.t, r, f, t', PageUp(sz0), data, Same(USER_RWX, |data|), Same(ZeroPage(), |data|));
      OneChanges(r0, f0, l, i, r, f, a');
    }
  }

  /** What uvmdealloc did, in terms of the ledger. */
  lemma Shrunk(r0: Ram, f0: seq<nat>, l: Ledger, i: nat, sz0: nat, end: nat, r: Ram, f: seq<nat>, data: seq<nat>)
    returns (a': Account)
    requires HasPages(r0, f0, l, i, PageUp(sz0)) && Good(r, l.procs[i].t)
    requires |data| == (if end < sz0 then PageUp(sz0) - PageUp(end) else 0)
    requires end < sz0 ==> Mapping(r0, l.procs[i].t, PageUp(end), data)
    requires Unmapped(r0, l.procs[i].t, r, l.procs[i].t, PageUp(end), |data|) && Pages(f) == Pages(f0) + Pages(data)
             && r.Keys == r0.Keys
    requires forall p :: p in r && p !in l.procs[i].t.owner && p !in data ==> r[p] == r0[p]
    ensures var k, t := PageUp(if end < sz0 then end else sz0), l.procs[i].t;
            && HasPages(r, f, Set(l, i, a'), i, k) && OthersSee(r0, r, l, i) && a'.t == t
            && Resized(r0, t, PageUp(sz0), r, t, k)
  {
    hide Good, Lookup, Accounted, Mine, Apart, Resized, Space, Exchanged, OthersSee, UserAt;
    var a := l.procs[i];
    HasSpace(r0, f0, l, i);
    var first := if end < sz0 then PageUp(end) else PageUp(sz0);
    a' := Account(a.t, Cut(a.user, first, |data|));
    assert Mapping(r0, a.t, first, data);
    assert Unmapped(r0, a.t, r, a.t, first, |data|);
    UnmapAccounts(r0, f0, a.t, a.user, l.kernel, r, f, first, data);
    UnmapResized(r0, a, l.kernel, r, first, data, a'.user);
    OneChanges(r0, f0, l, i, r, f, a');
  }

  // ----- fork -----

  /** fork's copy of the memory of process `i` of `sz` bytes to the process `j` that has none.  The
      child sees what its parent sees, or it gets nothing; the parent and all others see no
      difference. */
  method ForkCopy(m: Memory, oldroot: nat, newroot: nat, sz: nat, ghost l: Ledger, ghost i: nat, ghost j: nat)
    returns (ok: bool, ghost a': Account)
    requires m.Valid() && HasPages(m.ram, m.free, l, i, PageUp(sz)) && HasPages(m.ram, m.free, l, j, 0) && i != j
    requires oldroot == l.procs[i].t.root && newroot == l.procs[j].t.root && sz <= TRAPFRAME * PGSIZE
    modifies m
    ensures m.Valid() && HasPages(m.ram, m.free, Set(l, j, a'), j, if ok then PageUp(sz) else 0)
    ensures OthersSee(old(m.ram), m.ram, l, j) && a'.t.root == newroot
    ensures ok ==> forall va: nat {:trigger UserAt(m.ram, a'.t, va)} :: va < PageUp(sz) * PGSIZE ==>
                     UserAt(m.ram, a'.t, va) == UserAt(old(m.ram), l.procs[i].t, va)
    ensures !ok ==> |old(m.free)| < 3 * PageUp(sz)
  {
    hide Good, Lookup, Accounted, Mine, Fill, Evolved, SameMap, Apart, Runs, RunAt, Distinct, Sized, Space, Held,
         Exchanged;
    hide Mapping, Backed, Unmapped, OthersSee, UserAt, SourceFlags, Contents;
    HasSpace(m.ram, m.free, l, i);
    HasSpace(m.ram, m.free, l, j);
    ghost var s, t := l.procs[i].t, l.procs[j].t;
    ghost var src := Frames(m.ram, s, 0, PageUp(sz));
    ForkReady(m.ram, m.free, l, i, j, PageUp(sz));
    ghost var t', data;
    ok, t', data := m.UvmCopy(oldroot, newroot, sz, s, src, t);
    a' := Forked(old(m.ram), old(m.free), l, i, j, PageUp(sz), m.ram, m.free, t', ok, data);
  }

  lemma ForkReady(ram: Ram, free: seq<nat>, l: Ledger, i: nat, j: nat, k: nat)
    requires HasPages(ram, free, l, i, k) && HasPages(ram, free, l, j, 0) && i != j
    ensures var s, t := l.procs[i].t, l.procs[j].t;
            var src := Frames(ram, s, 0, k);
            && s.owner.Keys !! t.owner.Keys && |src| == k && Mapping(ram, s, 0, src) && Backed(ram, s, free, src)
            && (forall p :: p in src ==> p in ram && p !in t.owner)
            && forall n: nat :: n < k ==> !Present(Lookup(ram, t, n))
  {
    hide Good, Lookup, Accounted, Mine;
    HasSpace(ram, free, l, i);
    TwoApart(ram, free, l, i, j);
    FramesMapped(ram, free, l.procs[i], l.kernel, 0, k);
    forall p | p in Frames(ram, l.procs[i].t, 0, k)
      ensures p in ram && p !in l.procs[j].t.owner
    {
      assert p in Held(l.procs[i]);
    }
  }

  /** What uvmcopy did, in terms of the ledger. */
  lemma Forked(r0: Ram, f0: seq<nat>, l: Ledger, i: nat, j: nat, k: nat, r: Ram, f: seq<nat>, t': Tree, ok: bool,
               data: seq<nat>)
    returns (a': Account)
    requires HasPages(r0, f0, l, i, k) && HasPages(r0, f0, l, j, 0) && i != j && Good(r, t') && Apart(t', f)
    requires var src := Frames(r0, l.procs[i].t, 0, k);
             ok ==>
               && |data| == k == |src| && (forall p :: p in src ==> p in r0)
               && Fill(r0, f0, l.procs[j].t, r, f, t', 0, data, SourceFlags(r0, l.procs[i].t, k), Contents(r0, src, k))
    requires !ok ==> Evolved(r0, f0, l.procs[j].t, r, f, t') && SameMap(r0, l.procs[j].t, r, t')
    ensures HasPages(r, f, Set(l, j, a'), j, if ok then k else 0) && OthersSee(r0, r, l, j)
    ensures a'.t == t' && t'.root == l.procs[j].t.root
    ensures ok ==> forall va: nat {:trigger UserAt(r, a'.t, va)} :: va < k * PGSIZE ==>
            UserAt(r, a'.t, va) == UserAt(r0, l.procs[i].t, va)
  {
    hide Good, Lookup, Accounted, Mine, Fill, SameMap, Apart, Space, Exchanged, OthersSee, UserAt, SourceFlags,
         Contents;
    var s, b := l.procs[i].t, l.procs[j];
    HasSpace(r0, f0, l, j);
    ForkReady(r0, f0, l, i, j, k);
    var src := Frames(r0, s, 0, k);
    if ok {
      a' := Account(t', b.user + Numbered(data, 0));
      FillAccounts(r0, f0, b.t, b.user, l.kernel, r, f, t', 0, data, SourceFlags(r0, s, k), Contents(r0, src, k));
      FillSized(r0, f0, b, r, f, t', data, SourceFlags(r0, s, k), Contents(r0, src, k), a'.user);
      forall va: nat | va < k * PGSIZE
        ensures UserAt(r, t', va) == UserAt(r0, s, va)
      {
        ChildSeesParent(r0, f0, s, src, b.t, r, f, t', data, va);
      }
    } else {
      a' := Account(t', b.user);
      SameAccounts(r0, f0, b.t, b.user, l.kernel, r, f, t');
      SameResized(r0, f0, b, l.kernel, r, f, t', 0);
    }
    OneChanges(r0, f0, l, j, r, f, a');
  }

  lemma FillSized(r0: Ram, f0: seq<nat>, a: Account, r: Ram, f: seq<nat>, t: Tree,
                  data: seq<nat>, perms: seq<nat>, contents: seq<Page>, user': map<nat, nat>)
    requires Sized(r0, a, 0) && |data| <= TRAPFRAME && Fill(r0, f0, a.t, r, f, t, 0, data, perms, contents)
    ensures Sized(r, Account(t, user'), |data|) && t.root == a.t.root
  {
    hide Good, Lookup, Backed;
    forall n: nat | n < MAXPAGES
      ensures Present(Lookup(r, t, n)) <==> n < |data| || n >= TRAPFRAME
    {
      if n < |data| { PteRoundTrip(data[n], perms[n]); }
    }
  }

  // ----- proc_pagetable and proc_freepagetable -----

  const PTE_RX: nat := 10   // PTE_R | PTE_X
  const PTE_RW: nat := 6    // PTE_R | PTE_W

  /** Nothing is mapped but the two pages at the top, where the entries are `e1` and `e2`. */
  ghost predicate Top(ram: Ram, t: Tree, e1: nat, e2: nat)
    requires Good(ram, t)
  {
    forall n: nat {:trigger Lookup(ram, t, n)} :: n < MAXPAGES ==>
      Lookup(ram, t, n) == if n == TRAMPOLINE then e1 else if n == TRAPFRAME then e2 else 0
  }

  /** A process without memory is being given the page table `t`. */
  ghost predicate Making(r0: Ram, f0: seq<nat>, r: Ram, f: seq<nat>, t: Tree, kernel: set<nat>, e1: nat, e2: nat) {
    && Good(r, t) && Apart(t, f) && Top(r, t, e1, e2)
    && Mine(r, Account(t, map[]), kernel) && Exchanged(r0, f0, None, r, f, Account(t, map[]))
  }

  lemma StartMaking(r0: Ram, f0: seq<nat>, r: Ram, f: seq<nat>, t: Tree, kernel: set<nat>)
    requires Good(r, t) && f0 == [t.root] + f && t.owner.Keys == {t.root} && r.Keys == r0.Keys && Apart(t, f)
    requires forall n: nat {:trigger Lookup(r, t, n)} :: n < MAXPAGES ==> Lookup(r, t, n) == 0
    requires forall x :: x in r && x != t.root ==> r[x] == r0[x]
    ensures Making(r0, f0, r, f, t, kernel, 0, 0) && |f0| == |f| + 1
  {
    hide Good, Lookup, Mine, Exchanged;
    assert t.root in t.owner;
    CreateAccounts(r0, f0, r, f, t, kernel);
  }

  /** mappages of page `n`, whether it succeeds or not. */
  lemma MakeMore(r0: Ram, f0: seq<nat>, r1: Ram, f1: seq<nat>, t1: Tree, kernel: set<nat>, e1: nat, e2: nat,
                 r: Ram, f: seq<nat>, t: Tree, n: nat, done: nat, p: nat, perm: nat)
    requires Making(r0, f0, r1, f1, t1, kernel, e1, e2) && Good(r, t) && Apart(t, f) && Evolved(r1, f1, t1, r, f, t)
    requires TRAPFRAME <= n < MAXPAGES && done <= 1 && p in kernel && perm < 1024 && perm / 16 % 2 == 0
    requires Mapped(r1, t1, r, t, n, done, p, perm)
    ensures var e := MakePte(p, perm);
            && Present(e) && Ppn(e) == p && t.root == t1.root
            && if done == 0 then Making(r0, f0, r, f, t, kernel, e1, e2)
               else if n == TRAMPOLINE then Making(r0, f0, r, f, t, kernel, e, e2)
               else Making(r0, f0, r, f, t, kernel, e1, e)
  {
    hide Good, Lookup, Mine, Exchanged;
    PteRoundTrip(p, perm);
    HeldApart(r0, f0, r1, f1, t1);
    MapAccounts(r1, f1, t1, map[], kernel, r, f, t, n, done, p, perm);
    ExchangedTrans(r0, f0, None, r1, f1, Account(t1, map[]), r, f, Account(t, map[]));
  }

  lemma HeldApart(r0: Ram, f0: seq<nat>, r: Ram, f: seq<nat>, t: Tree)
    requires Exchanged(r0, f0, None, r, f, Account(t, map[]))
    ensures Held(Account(t, map[])) !! Pages(f)
  {
  }

  /** uvmunmap of the trampoline. */
  lemma MakeLess(r0: Ram, f0: seq<nat>, r1: Ram, f1: seq<nat>, t: Tree, kernel: set<nat>, e1: nat, e2: nat, r: Ram,
                 f: seq<nat>)
    requires Making(r0, f0, r1, f1, t, kernel, e1, e2) && Good(r, t) && Apart(t, f)
    requires Unmapped(r1, t, r, t, TRAMPOLINE, 1) && r.Keys == r1.Keys && Pages(f) == Pages(f1)
    requires forall p :: p in r && p !in t.owner ==> r[p] == r1[p]
    ensures Making(r0, f0, r, f, t, kernel, 0, e2)
  {
    hide Good, Lookup, Mine, Exchanged;
    HeldApart(r0, f0, r1, f1, t);
    DropAccounts(r1, f1, t, map[], kernel, r, f, TRAMPOLINE);
    ExchangedTrans(r0, f0, None, r1, f1, Account(t, map[]), r, f, Account(t, map[]));
  }

  /** A page table with nothing mapped can be freed. */
  lemma ReadyToFree(r0: Ram, f0: seq<nat>, r: Ram, f: seq<nat>, t: Tree, kernel: set<nat>)
    requires Making(r0, f0, r, f, t, kernel, 0, 0)
    ensures Mapping(r, t, 0, []) && Backed(r, t, f, []) && forall n: nat :: n < MAXPAGES ==> !Present(Lookup(r, t, n))
  {
    hide Good, Lookup, Mine, Exchanged;
  }

  lemma GivenBack(r0: Ram, f0: seq<nat>, r1: Ram, f1: seq<nat>, t: Tree, l: Ledger, i: nat, r: Ram, f: seq<nat>)
    requires Accounted(r0, f0, l) && i < |l.procs| && l.procs[i].None? && Making(r0, f0, r1, f1, t, l.kernel, 0, 0)
    requires r.Keys == r1.Keys && Pages(f) == Pages(f1) + Pages([]) + t.owner.Keys
    requires forall p :: p in r && p !in t.owner && p !in [] ==> r[p] == r1[p]
    ensures Accounted(r, f, Set(l, i, None)) && OthersSee(r0, r, l, i) && Pages(f) == Pages(f0)
  {
    hide Good, Lookup, Accounted, OthersSee;
    hide Mine;
    ReadyToFree(r0, f0, r1, f1, t, l.kernel);
    FreeAccounts(r1, f1, t, map[], l.kernel, r, f, []);
    ExchangedTrans(r0, f0, None, r1, f1, Account(t, map[]), r, f, None);
    OneChanges(r0, f0, l, i, r, f, None) by { NoneIsMine(r, None, l.kernel); }
  }

  lemma Made(r0: Ram, f0: seq<nat>, r: Ram, f: seq<nat>, t: Tree, l: Ledger, i: nat, e1: nat, e2: nat)
    requires Accounted(r0, f0, l) && i < |l.procs| && l.procs[i].None? && Making(r0, f0, r, f, t, l.kernel, e1, e2)
    requires Present(e1) && Present(e2)
    ensures var a' := Account(t, map[]);
            && HasPages(r, f, Set(l, i, a'), i, 0) && OthersSee(r0, r, l, i)
            && Lookup(r, t, TRAMPOLINE) == e1 && Lookup(r, t, TRAPFRAME) == e2
  {
    hide Good, Lookup, Accounted, OthersSee, Mine, Exchanged;
    OneChanges(r0, f0, l, i, r, f, Account(t, map[]));
  }

  /** proc_pagetable, for the process `i` that has no page table.  If memory runs out, nothing of it
      is lost. */
  method ProcPagetable(m: Memory, trampoline: nat, trapframe: nat, ghost l: Ledger, ghost i: nat)
    returns (root: nat, ghost a': Account)
    requires m.Valid() && Accounted(m.ram, m.free, l) && i < |l.procs| && l.procs[i].None?
    requires trampoline in l.kernel && trapframe in l.kernel
    modifies m
    ensures m.Valid() && Accounted(m.ram, m.free, Set(l, i, a')) && OthersSee(old(m.ram), m.ram, l, i)
    ensures root == 0 ==> a'.None? && Pages(m.free) == Pages(old(m.free)) && |old(m.free)| < 5
    ensures root != 0 ==>
              && Sized(m.ram, a', 0) && a'.t.root == root
              && Lookup(m.ram, a'.t, TRAMPOLINE) == MakePte(trampoline, PTE_RX)
              && Lookup(m.ram, a'.t, TRAPFRAME) == MakePte(trapframe, PTE_RW)
    // not for the user; the one is to be executed, the other written
    ensures root != 0 ==>
              && Flags(Lookup(m.ram, a'.t, TRAMPOLINE)) == 1 + 2 + 8
              && Flags(Lookup(m.ram, a'.t, TRAPFRAME)) == 1 + 2 + 4
  {
    hide Good, Lookup, Accounted, Evolved, Apart, Runs, RunAt, Distinct, Held, Making, Mapped, Unmapped;
    hide Mapping, Backed, OthersSee, MakePte, Sized;
    ghost var r0, f0 := m.ram, m.free;
    PteRoundTrip(trampoline, PTE_RX);
    PteRoundTrip(trapframe, PTE_RW);
    var ok;
    ghost var t, done;
    ok, root, t := m.UvmCreate();
    if !ok {
      NothingMade(r0, f0, l, i);
      return 0, None;
    }
    StartMaking(r0, f0, m.ram, m.free, t, l.kernel);
    ghost var r1, f1, t1 := m.ram, m.free, t;
    TopPage(TRAMPOLINE, trampoline);
    NothingThere(r0, f0, m.ram, m.free, t, l.kernel, 0, 0);
    ok, t, done := m.MapPages(root, TRAMPOLINE * PGSIZE, PGSIZE, trampoline * PGSIZE, PTE_RX, t);
    MakeMore(r0, f0, r1, f1, t1, l.kernel, 0, 0, m.ram, m.free, t, TRAMPOLINE, done, trampoline, PTE_RX);
    if !ok {
      ghost var r2, f2 := m.ram, m.free;
      ReadyToFree(r0, f0, r2, f2, t, l.kernel);
      m.UvmFree(root, 0, t, []);
      GivenBack(r0, f0, r2, f2, t, l, i, m.ram, m.free);
      return 0, None;
    }
    ghost var r2, f2, t2, e1 := m.ram, m.free, t, MakePte(trampoline, PTE_RX);
    TopPage(TRAPFRAME, trapframe);
    NothingThere(r0, f0, m.ram, m.free, t, l.kernel, e1, 0);
    ok, t, done := m.MapPages(root, TRAPFRAME * PGSIZE, PGSIZE, trapframe * PGSIZE, PTE_RW, t);
    MakeMore(r0, f0, r2, f2, t2, l.kernel, e1, 0, m.ram, m.free, t, TRAPFRAME, done, trapframe, PTE_RW);
    if !ok {
      ghost var r3, f3 := m.ram, m.free;
      SomethingThere(r0, f0, m.ram, m.free, t, l.kernel, e1, 0, trampoline);
      m.UvmUnmap(root, TRAMPOLINE * PGSIZE, 1, false, t, [trampoline]);
      MakeLess(r0, f0, r3, f3, t, l.kernel, e1, 0, m.ram, m.free);
      ghost var r4, f4 := m.ram, m.free;
      ReadyToFree(r0, f0, r4, f4, t, l.kernel);
      m.UvmFree(root, 0, t, []);
      GivenBack(r0, f0, r4, f4, t, l, i, m.ram, m.free);
      return 0, None;
    }
    Made(r0, f0, m.ram, m.free, t, l, i, e1, MakePte(trapframe, PTE_RW));
    a' := Account(t, map[]);
    NotPageZero(r0, f0, m.ram, m.free, t, l.kernel, e1, MakePte(trapframe, PTE_RW));
  }

  lemma NothingMade(ram: Ram, free: seq<nat>, l: Ledger, i: nat)
    requires Accounted(ram, free, l) && i < |l.procs| && l.procs[i].None?
    ensures Accounted(ram, free, Set(l, i, None)) && OthersSee(ram, ram, l, i)
  {
    hide Good, Mine;
    assert Set(l, i, None) == l;
  }

  lemma TopPage(n: nat, p: nat)
    requires TRAPFRAME <= n < MAXPAGES
    ensures n * PGSIZE / PGSIZE == n && (n * PGSIZE + PGSIZE - 1) / PGSIZE == n && p * PGSIZE / PGSIZE == p
    ensures n * PGSIZE + PGSIZE <= MAXVA && n * PGSIZE % PGSIZE == 0
  {
  }

  lemma NothingThere(r0: Ram, f0: seq<nat>, r: Ram, f: seq<nat>, t: Tree, kernel: set<nat>, e1: nat, e2: nat)
    requires Making(r0, f0, r, f, t, kernel, e1, e2)
    ensures Good(r, t) && Apart(t, f)
    ensures e1 == 0 ==> Lookup(r, t, TRAMPOLINE) == 0
    ensures e2 == 0 ==> Lookup(r, t, TRAPFRAME) == 0
  {
    hide Good, Lookup, Mine, Exchanged;
  }

  lemma SomethingThere(r0: Ram, f0: seq<nat>, r: Ram, f: seq<nat>, t: Tree, kernel: set<nat>, e1: nat, e2: nat, p: nat)
    requires Making(r0, f0, r, f, t, kernel, e1, e2) && Present(e1) && Ppn(e1) == p
    ensures Good(r, t) && Mapping(r, t, TRAMPOLINE, [p])
  {
    hide Good, Lookup, Mine, Exchanged;
  }

  lemma NotPageZero(r0: Ram, f0: seq<nat>, r: Ram, f: seq<nat>, t: Tree, kernel: set<nat>, e1: nat, e2: nat)
    requires Making(r0, f0, r, f, t, kernel, e1, e2) && 0 !in r
    ensures t.root != 0
  {
    hide Lookup, Mine, Exchanged;
  }

  /** proc_freepagetable: every page of the process, and every page of its page table, is free
      again, and the pages of the kernel it had mapped are not. */
  method ProcFreepagetable(m: Memory, root: nat, sz: nat, ghost l: Ledger, ghost i: nat)
    requires m.Valid() && HasPages(m.ram, m.free, l, i, PageUp(sz)) && root == l.procs[i].t.root
    modifies m
    ensures m.Valid() && Accounted(m.ram, m.free, Set(l, i, None)) && OthersSee(old(m.ram), m.ram, l, i)
    ensures Pages(m.free) == Pages(old(m.free)) + Held(l.procs[i])
  {
    hide Good, Lookup, Accounted, Mine, Apart, Runs, RunAt, Distinct, Held, Exchanged, Space;
    hide Mapping, Backed, Unmapped, OthersSee, Sized;
    ghost var r0, f0, a := m.ram, m.free, l.procs[i];
    HasSpace(r0, f0, l, i);
    KernelThere(r0, a, l.kernel, PageUp(sz));
    m.UvmUnmap(root, TRAMPOLINE * PGSIZE, 1, false, a.t, [Ppn(Lookup(m.ram, a.t, TRAMPOLINE))]);
    ghost var r1, f1 := m.ram, m.free;
    KernelGone(r0, f0, a, l.kernel, r1, f1, TRAMPOLINE);
    TrapframeThere(r0, r1, a, PageUp(sz));
    m.UvmUnmap(root, TRAPFRAME * PGSIZE, 1, false, a.t, [Ppn(Lookup(m.ram, a.t, TRAPFRAME))]);
    ghost var r2, f2 := m.ram, m.free;
    KernelGone(r1, f1, a, l.kernel, r2, f2, TRAPFRAME);
    ExchangedTrans(r0, f0, a, r1, f1, a, r2, f2, a);
    UserThere(r0, r1, r2, f2, a, l.kernel, PageUp(sz));
    ghost var data := Frames(r2, a.t, 0, PageUp(sz));
    m.UvmFree(root, sz, a.t, data);
    FreeAccounts(r2, f2, a.t, a.user, l.kernel, m.ram, m.free, data);
    ExchangedTrans(r0, f0, a, r2, f2, a, m.ram, m.free, None);
    NoneIsMine(m.ram, None, l.kernel);
    OneChanges(r0, f0, l, i, m.ram, m.free, None);
    assert Pages(m.free) == Pages(old(m.free)) + Held(l.procs[i]) by { NothingHeld(r0, f0, a, m.ram, m.free); }
  }

  lemma NothingHeld(r0: Ram, f0: seq<nat>, a: Account, r: Ram, f: seq<nat>)
    requires Exchanged(r0, f0, a, r, f, None)
    ensures Pages(f) == Pages(f0) + Held(a)
  {
  }

  lemma KernelThere(ram: Ram, a: Account, kernel: set<nat>, k: nat)
    requires Sized(ram, a, k)
    ensures Mapping(ram, a.t, TRAMPOLINE, [Ppn(Lookup(ram, a.t, TRAMPOLINE))])
  {
    hide Good, Lookup;
  }

  lemma TrapframeThere(r0: Ram, r1: Ram, a: Account, k: nat)
    requires Sized(r0, a, k) && Good(r1, a.t) && Unmapped(r0, a.t, r1, a.t, TRAMPOLINE, 1)
    ensures Mapping(r1, a.t, TRAPFRAME, [Ppn(Lookup(r1, a.t, TRAPFRAME))])
  {
    hide Good, Lookup;
  }

  lemma KernelGone(r0: Ram, f0: seq<nat>, a: Account, kernel: set<nat>, r: Ram, f: seq<nat>, n: nat)
    requires Mine(r0, a, kernel) && a.Account? && Held(a) !! Pages(f0) && TRAPFRAME <= n
    requires Good(r, a.t) && Unmapped(r0, a.t, r, a.t, n, 1) && r.Keys == r0.Keys && Pages(f) == Pages(f0)
    requires forall p :: p in r && p !in a.t.owner ==> r[p] == r0[p]
    ensures Mine(r, a, kernel) && Exchanged(r0, f0, a, r, f, a) && Held(a) !! Pages(f)
  {
    hide Good, Lookup, Mine;
    assert a == Account(a.t, a.user);
    DropAccounts(r0, f0, a.t, a.user, kernel, r, f, n);
  }

  lemma UserThere(r0: Ram, r1: Ram, r2: Ram, f2: seq<nat>, a: Account, kernel: set<nat>, k: nat)
    requires Sized(r0, a, k) && Good(r1, a.t) && Good(r2, a.t) && Mine(r2, a, kernel) && Held(a) !! Pages(f2)
             && Held(a) <= r2.Keys
    requires Unmapped(r0, a.t, r1, a.t, TRAMPOLINE, 1) && Unmapped(r1, a.t, r2, a.t, TRAPFRAME, 1)
    ensures var data := Frames(r2, a.t, 0, k);
            |data| == k <= TRAPFRAME && Mapping(r2, a.t, 0, data) && Backed(r2, a.t, f2, data)
    ensures forall n: nat :: k <= n < MAXPAGES ==> !Present(Lookup(r2, a.t, n))
  {
    hide Good, Lookup, Mine;
    forall n: nat | n < MAXPAGES
      ensures Present(Lookup(r2, a.t, n)) <==> n < k
    {
      assert Lookup(r1, a.t, n) == Lookup(r1, a.t, n) && Lookup(r0, a.t, n) == Lookup(r0, a.t, n);
    }
    FramesMapped(r2, f2, a, kernel, 0, k);
  }
}
