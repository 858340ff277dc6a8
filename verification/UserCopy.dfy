/** vm.c's copies between the kernel and user space.  Through its page table a process sees one
    memory of bytes, and copyout, copyin and copyinstr write and read just that. */
module UserCopy {
  import opened Common
  import opened PageTable
  import opened Vm
  import FsDisk

  type Byte = FsDisk.Byte

  // ----- the bytes of a page -----

  /** Byte `k` of a 64-bit word, the least significant first. */
  function ByteOf(v: nat, k: nat): Byte
    requires k < 8
  {
    if k < 4 then FsDisk.Digit(v % UINT, k) else FsDisk.Digit(v / UINT % UINT, k - 4)
  }

  function SetDigit(v: FsDisk.UWord, k: nat, b: Byte): FsDisk.UWord
    requires k < 4
  {
    FsDisk.Join(if k == 0 then b else FsDisk.Digit(v, 0), if k == 1 then b else FsDisk.Digit(v, 1),
                if k == 2 then b else FsDisk.Digit(v, 2), if k == 3 then b else FsDisk.Digit(v, 3))
  }

  function SetByte(v: nat, k: nat, b: Byte): nat
    requires k < 8
  {
    var lo, hi := v % UINT, v / UINT % UINT;
    if k < 4 then SetDigit(lo, k, b) + UINT * hi else lo + UINT * SetDigit(hi, k - 4, b)
  }

  lemma DigitOfJoin(b0: Byte, b1: Byte, b2: Byte, b3: Byte, k: nat)
    requires k < 4
    ensures FsDisk.Digit(FsDisk.Join(b0, b1, b2, b3), k) == if k == 0 then b0 else if k == 1 then b1
            else if k == 2 then b2 else b3
  {
    var v := FsDisk.Join(b0, b1, b2, b3);
    assert v / 0x100 == b1 + 0x100 * b2 + 0x1_0000 * b3;
    assert v / 0x1_0000 == b2 + 0x100 * b3;
  }

  lemma SetDigitReads(v: FsDisk.UWord, k: nat, b: Byte, j: nat)
    requires k < 4 && j < 4
    ensures FsDisk.Digit(SetDigit(v, k, b), j) == if j == k then b else FsDisk.Digit(v, j)
  {
    hide FsDisk.Join, FsDisk.Digit;
    DigitOfJoin(if k == 0 then b else FsDisk.Digit(v, 0), if k == 1 then b else FsDisk.Digit(v, 1),
                if k == 2 then b else FsDisk.Digit(v, 2), if k == 3 then b else FsDisk.Digit(v, 3), j);
  }

  lemma Halves(lo: FsDisk.UWord, hi: FsDisk.UWord)
    ensures (lo + UINT * hi) % UINT == lo && (lo + UINT * hi) / UINT % UINT == hi
  {
  }

  lemma SetByteReads(v: nat, k: nat, b: Byte, j: nat)
    requires k < 8 && j < 8
    ensures ByteOf(SetByte(v, k, b), j) == if j == k then b else ByteOf(v, j)
  {
    hide FsDisk.Digit, SetDigit;
    var lo, hi := v % UINT, v / UINT % UINT;
    if k < 4 {
      Halves(SetDigit(lo, k, b), hi);
      if j < 4 { SetDigitReads(lo, k, b, j); }
    } else {
      Halves(lo, SetDigit(hi, k - 4, b));
      if j >= 4 { SetDigitReads(hi, k - 4, b, j - 4); }
    }
  }

  function PageByte(pg: Page, o: nat): Byte
    requires o < PGSIZE
  {
    ByteOf(pg[o / 8], o % 8)
  }

  function PutByte(pg: Page, o: nat, b: Byte): Page
    requires o < PGSIZE
  {
    pg[o / 8 := SetByte(pg[o / 8], o % 8, b)]
  }

  lemma PutByteReads(pg: Page, o: nat, b: Byte, p: nat)
    requires o < PGSIZE && p < PGSIZE
    ensures PageByte(PutByte(pg, o, b), p) == if p == o then b else PageByte(pg, p)
  {
    hide ByteOf, SetByte;
    SetByteReads(pg[o / 8], o % 8, b, p % 8);
  }

  /** Page `to` is page `from` with `data` written over it from `off` on. */
  ghost predicate Moved(from: Page, to: Page, off: nat, data: seq<Byte>) {
    forall o: nat {:trigger PageByte(to, o)} :: o < PGSIZE ==>
      PageByte(to, o) == if off <= o < off + |data| then data[o - off] else PageByte(from, o)
  }

  /** Page `p` of memory has been written so, and no other. */
  ghost predicate Stored(ram: Ram, ram': Ram, p: nat, off: nat, data: seq<Byte>) {
    && p in ram && ram'.Keys == ram.Keys && Moved(ram[p], ram'[p], off, data)
    && forall x :: x in ram && x != p ==> ram'[x] == ram[x]
  }

  /** memmove from the kernel to physical address `pa`, within one page. */
  method MoveOut(m: Memory, pa: nat, data: seq<Byte>)
    requires m.Valid() && pa / PGSIZE in m.ram && pa / PGSIZE !in m.free && pa % PGSIZE + |data| <= PGSIZE
    modifies m`ram
    ensures m.Valid() && Stored(old(m.ram), m.ram, pa / PGSIZE, pa % PGSIZE, data)
  {
    hide PageByte, PutByte, Runs, RunAt, Distinct;
    var p, off := pa / PGSIZE, pa % PGSIZE;
    var pg, i := m.ram[p], 0;
    while i < |data|
      invariant i <= |data| && Moved(m.ram[p], pg, off, data[..i])
    {
      ghost var to := PutByte(pg, off + i, data[i]);
      forall o: nat | o < PGSIZE
        ensures PageByte(to, o) == if off <= o < off + i + 1 then data[..i + 1][o - off] else PageByte(m.ram[p], o)
      {
        PutByteReads(pg, off + i, data[i], o);
      }
      assert Moved(m.ram[p], to, off, data[..i + 1]);
      pg := PutByte(pg, off + i, data[i]);
      i := i + 1;
    }
    assert data[..i] == data;
    ghost var ram0 := m.ram;
    m.ram := m.ram[p := pg];
    RunsKept(ram0, m.ram, m.free);
  }

  /** memmove of `n` bytes from physical address `pa`, within one page. */
  method MoveIn(m: Memory, pa: nat, n: nat) returns (data: seq<Byte>)
    requires pa / PGSIZE in m.ram && pa % PGSIZE + n <= PGSIZE
    ensures |data| == n && forall k :: 0 <= k < n ==> data[k] == PageByte(m.ram[pa / PGSIZE], pa % PGSIZE + k)
  {
    data := [];
    while |data| < n
      invariant |data| <= n && forall k :: 0 <= k < |data| ==> data[k] == PageByte(m.ram[pa / PGSIZE], pa % PGSIZE + k)
    {
      data := data + [PageByte(m.ram[pa / PGSIZE], pa % PGSIZE + |data|)];
    }
  }

  // ----- user memory -----

  /** PTE_V and PTE_U are set. */
  predicate UserPage(e: nat) { Present(e) && e / 16 % 2 == 1 }

  /** What a process finds at a virtual address. */
  datatype Seen = Nothing | Sees(b: Byte)

  ghost function UserAt(ram: Ram, t: Tree, va: nat): Seen
    requires Good(ram, t)
  {
    var e := Lookup(ram, t, va / PGSIZE);
    if va < MAXVA && UserPage(e) && Ppn(e) in ram then Sees(PageByte(ram[Ppn(e)], va % PGSIZE)) else Nothing
  }

  /** Frame `p` holds user page `n`. */
  ghost predicate Frame(ram: Ram, t: Tree, n: nat, p: nat)
    requires Good(ram, t)
  {
    n < MAXPAGES && UserPage(Lookup(ram, t, n)) && Ppn(Lookup(ram, t, n)) == p
  }

  /** User pages have frames of their own, neither free nor part of the page table. */
  ghost predicate Space(ram: Ram, t: Tree, free: seq<nat>)
    requires Good(ram, t)
  {
    && (forall n: nat, p: nat {:trigger Frame(ram, t, n, p)} :: Frame(ram, t, n, p) ==>
       p in ram && p !in t.owner && p !in free)
    && (forall n: nat, k: nat, p: nat {:trigger Frame(ram, t, n, p), Frame(ram, t, k, p)} ::
          Frame(ram, t, n, p) && Frame(ram, t, k, p) ==> n == k)
  }

  /** A store into the frame of one user page shows in that page alone. */
  lemma StoreSeen(ram: Ram, ram': Ram, t: Tree, free: seq<nat>, va: nat, data: seq<Byte>)
    requires Good(ram, t) && Space(ram, t, free) && va < MAXVA && UserPage(Lookup(ram, t, va / PGSIZE))
    requires va % PGSIZE + |data| <= PGSIZE && Stored(ram, ram', Ppn(Lookup(ram, t, va / PGSIZE)), va % PGSIZE, data)
    ensures Good(ram', t) && SameMap(ram, t, ram', t) && Space(ram', t, free)
    ensures forall a: nat {:trigger UserAt(ram', t, a)} ::
              UserAt(ram', t, a) == if va <= a < va + |data| then Sees(data[a - va]) else UserAt(ram, t, a)
  {
    hide Good, Lookup, PageByte;
    var n := va / PGSIZE;
    var p := Ppn(Lookup(ram, t, n));
    assert Frame(ram, t, n, p);
    OtherPage(ram, ram', t, p);
    FramesSame(ram, ram', t, free);
    forall a: nat
      ensures UserAt(ram', t, a) == if va <= a < va + |data| then Sees(data[a - va]) else UserAt(ram, t, a)
    {
      InPage(va, |data|, a);
      if a < MAXVA {
        assert Lookup(ram', t, a / PGSIZE) == Lookup(ram, t, a / PGSIZE);
        if UserPage(Lookup(ram, t, a / PGSIZE)) && a / PGSIZE != n {
          assert Frame(ram, t, a / PGSIZE, Ppn(Lookup(ram, t, a / PGSIZE)));
        }
      }
    }
  }

  lemma FramesSame(ram: Ram, ram': Ram, t: Tree, free: seq<nat>)
    requires Good(ram, t) && Good(ram', t) && SameMap(ram, t, ram', t) && Space(ram, t, free) && ram'.Keys == ram.Keys
    ensures Space(ram', t, free)
    ensures forall n: nat, p: nat {:trigger Frame(ram', t, n, p)} :: Frame(ram', t, n, p) <==> Frame(ram, t, n, p)
  {
    hide Good, Lookup;
    forall n: nat, p: nat
      ensures Frame(ram', t, n, p) <==> Frame(ram, t, n, p)
    {
      if n < MAXPAGES { assert Lookup(ram', t, n) == Lookup(ram, t, n); }
    }
  }

  lemma InPage(va: nat, n: nat, a: nat)
    requires va % PGSIZE + n <= PGSIZE
    ensures va <= a < va + n ==> a / PGSIZE == va / PGSIZE && a % PGSIZE - va % PGSIZE == a - va
    ensures a / PGSIZE == va / PGSIZE ==> (va <= a < va + n <==> va % PGSIZE <= a % PGSIZE < va % PGSIZE + n)
  {
  }

  /** walkaddr: the physical address of a user page, or 0. */
  method WalkAddr(m: Memory, root: nat, va: nat, ghost t: Tree) returns (pa: nat)
    requires m.Holds(t) && root == t.root
    modifies m
    ensures m.Holds(t) && m.ram == old(m.ram) && m.free == old(m.free)
    ensures pa == if va < MAXVA && UserPage(Lookup(m.ram, t, va / PGSIZE))
            then Ppn(Lookup(m.ram, t, va / PGSIZE)) * PGSIZE else 0
  {
    hide Good, Lookup, Via, Runs, RunAt, Distinct;
    if va >= MAXVA {
      return 0;
    }
    var found, x, i, t' := m.Walk(root, va, false, t);
    LookupIs(m.ram, t, va / PGSIZE);
    if !found {
      return 0;
    }
    var pte := m.ram[x][i];
    if !Present(pte) {
      return 0;
    }
    if pte / 16 % 2 != 1 {
      return 0;
    }
    pa := Ppn(pte) * PGSIZE;
  }

  /** Nothing outside the frames of user pages has been written. */
  ghost predicate OnlyFrames(ram: Ram, ram': Ram, t: Tree)
    requires Good(ram, t)
  {
    ram'.Keys == ram.Keys && forall p :: p in ram && (forall n: nat :: !Frame(ram, t, n, p)) ==> ram'[p] == ram[p]
  }

  /** The process sees the first `done` bytes of `src` at `dst`, where it had access before, and
      everything else as it was. */
  ghost predicate Written(ram0: Ram, ram: Ram, t: Tree, dst: nat, src: seq<Byte>, done: nat)
    requires Good(ram0, t) && Good(ram, t) && done <= |src|
  {
    && (forall a: nat {:trigger UserAt(ram, t, a)} ::
          UserAt(ram, t, a) == if dst <= a < dst + done then Sees(src[a - dst]) else UserAt(ram0, t, a))
    && (forall a: nat {:trigger UserAt(ram0, t, a)} :: dst <= a < dst + done ==> UserAt(ram0, t, a) != Nothing)
  }

  /** copyout.  It writes `src` up to the first page the process may not access, and changes
      nothing else that any process sees. */
  method CopyOut(m: Memory, root: nat, dstva: nat, src: seq<Byte>, ghost t: Tree) returns (r: int, ghost done: nat)
    requires m.Holds(t) && root == t.root && Space(m.ram, t, m.free)
    modifies m
    ensures m.Holds(t) && m.free == old(m.free) && SameMap(old(m.ram), t, m.ram, t) && Space(m.ram, t, m.free)
    ensures done <= |src| && r == (if done == |src| then 0 else -1) && Written(old(m.ram), m.ram, t, dstva, src, done)
    ensures r == -1 ==> UserAt(old(m.ram), t, dstva + done) == Nothing
    ensures OnlyFrames(old(m.ram), m.ram, t)
  {
    hide Good, Lookup, Runs, RunAt, Distinct, Moved, Stored, Frame, PageByte, UserAt, Written, Space, OnlyFrames;
    var dst: nat, len: nat, at: nat := dstva, |src|, 0;
    done := 0;
    StartWalk(m.ram, m.free, t);
    NoneWritten(m.ram, t, dstva, src);
    while len > 0
      invariant at == done && done + len == |src| && (len > 0 ==> dst == dstva + done)
      invariant m.Holds(t) && m.free == old(m.free) && SameMap(old(m.ram), t, m.ram, t) && Space(m.ram, t, m.free)
      invariant Written(old(m.ram), m.ram, t, dstva, src, done) && OnlyFrames(old(m.ram), m.ram, t)
    {
      var va0 := dst / PGSIZE * PGSIZE;   // PGROUNDDOWN(dstva)
      var pa0 := WalkAddr(m, root, va0, t);
      Translated(m.ram, t, m.free, dst, pa0);
      if pa0 == 0 {
        SeenBefore(old(m.ram), m.ram, t, dstva, src, done);
        return -1, done;
      }
      var n := PGSIZE - (dst - va0);
      if n > len {
        n := len;
      }
      ghost var ram1 := m.ram;
      MoveOut(m, pa0 + (dst - va0), src[at..at + n]);
      OneMore(old(m.ram), ram1, m.ram, t, m.free, dstva, src, done, n, (pa0 + (dst - va0)) / PGSIZE);
      len := len - n;
      at, done := at + n, done + n;
      dst := va0 + PGSIZE;
    }
    r := 0;
  }

  /** What walkaddr answers for the page of `va`. */
  lemma Translated(ram: Ram, t: Tree, free: seq<nat>, va: nat, pa0: nat)
    requires Good(ram, t) && Space(ram, t, free) && 0 !in ram
    requires var n := va / PGSIZE;
             pa0 == if n * PGSIZE < MAXVA && UserPage(Lookup(ram, t, n * PGSIZE / PGSIZE))
               then Ppn(Lookup(ram, t, n * PGSIZE / PGSIZE)) * PGSIZE else 0
    ensures pa0 == 0 <==> UserAt(ram, t, va) == Nothing
    ensures var o := va - va / PGSIZE * PGSIZE; 0 <= o == va % PGSIZE < PGSIZE && (pa0 + o) % PGSIZE == o
    ensures pa0 != 0 ==>
              var p := (pa0 + (va - va / PGSIZE * PGSIZE)) / PGSIZE;
              && va < MAXVA && Frame(ram, t, va / PGSIZE, p)
              && p in ram && p !in free && p !in t.owner
  {
    hide Good, Lookup;
    var e := Lookup(ram, t, va / PGSIZE);
    assert va < MAXVA ==> va / PGSIZE < MAXPAGES;
    assert va / PGSIZE * PGSIZE < MAXVA <==> va < MAXVA;
    assert va / PGSIZE * PGSIZE / PGSIZE == va / PGSIZE;
    if va < MAXVA && UserPage(e) {
      assert Frame(ram, t, va / PGSIZE, Ppn(e));
      PageParts(Ppn(e), va % PGSIZE);
    }
  }

  lemma PageParts(p: nat, o: nat)
    requires o < PGSIZE
    ensures (p * PGSIZE + o) / PGSIZE == p && (p * PGSIZE + o) % PGSIZE == o
  {
  }

  lemma NoneWritten(ram: Ram, t: Tree, dst: nat, src: seq<Byte>)
    requires Good(ram, t)
    ensures Written(ram, ram, t, dst, src, 0) && OnlyFrames(ram, ram, t)
  {
  }

  lemma SeenBefore(r0: Ram, r1: Ram, t: Tree, dst: nat, src: seq<Byte>, done: nat)
    requires Good(r0, t) && Good(r1, t) && done <= |src| && Written(r0, r1, t, dst, src, done)
    ensures UserAt(r0, t, dst + done) == UserAt(r1, t, dst + done)
  {
    hide UserAt;
  }

  /** One piece more has been copied. */
  lemma OneMore(r0: Ram, r1: Ram, r2: Ram, t: Tree, free: seq<nat>, dst: nat, src: seq<Byte>, done: nat, n: nat, p: nat)
    requires Good(r0, t) && Good(r1, t) && SameMap(r0, t, r1, t) && Space(r1, t, free) && OnlyFrames(r0, r1, t)
    requires 0 < n && done + n <= |src| && Written(r0, r1, t, dst, src, done)
    requires dst + done < MAXVA && Frame(r1, t, (dst + done) / PGSIZE, p) && (dst + done) % PGSIZE + n <= PGSIZE
    requires Stored(r1, r2, p, (dst + done) % PGSIZE, src[done..done + n])
    ensures Good(r2, t) && SameMap(r0, t, r2, t) && Space(r2, t, free) && OnlyFrames(r0, r2, t)
    ensures Written(r0, r2, t, dst, src, done + n)
  {
    hide Good, Lookup, Moved, PageByte, Space, UserAt, SameMap;
    var va, data := dst + done, src[done..done + n];
    StoreSeen(r1, r2, t, free, va, data);
    SameMapTrans(r0, t, r1, t, r2, t);
    SameFrame(r0, r1, t, va / PGSIZE, p);
    Accessible(r1, t, va, n);
    forall a: nat
      ensures UserAt(r2, t, a) == if dst <= a < dst + done + n then Sees(src[a - dst]) else UserAt(r0, t, a)
      ensures dst <= a < dst + done + n ==> UserAt(r0, t, a) != Nothing
    {
      assert UserAt(r2, t, a) == if va <= a < va + n then Sees(data[a - va]) else UserAt(r1, t, a);
      assert UserAt(r1, t, a) == if dst <= a < va then Sees(src[a - dst]) else UserAt(r0, t, a);
    }
  }

  lemma SameFrame(r0: Ram, r1: Ram, t: Tree, n: nat, p: nat)
    requires Good(r0, t) && Good(r1, t) && SameMap(r0, t, r1, t) && n < MAXPAGES
    ensures Frame(r1, t, n, p) <==> Frame(r0, t, n, p)
  {
    assert Lookup(r1, t, n) == Lookup(r0, t, n);
  }

  /** A page is accessible as a whole. */
  lemma Accessible(ram: Ram, t: Tree, va: nat, n: nat)
    requires Good(ram, t) && va < MAXVA && va % PGSIZE + n <= PGSIZE
    requires var e := Lookup(ram, t, va / PGSIZE); UserPage(e) && Ppn(e) in ram
    ensures forall a: nat {:trigger UserAt(ram, t, a)} :: va <= a < va + n ==> UserAt(ram, t, a) != Nothing
  {
    hide Good, Lookup, PageByte;
    forall a: nat | va <= a < va + n
      ensures UserAt(ram, t, a) != Nothing
    {
      InPage(va, n, a);
    }
  }

  /** `out` is what the process sees from `src` on. */
  ghost predicate Reads(ram: Ram, t: Tree, src: nat, out: seq<Byte>)
    requires Good(ram, t)
  {
    forall k: nat {:trigger out[k]} :: k < |out| ==> UserAt(ram, t, src + k) == Sees(out[k])
  }

  lemma ReadsPage(ram: Ram, t: Tree, va: nat, data: seq<Byte>)
    requires Good(ram, t) && va < MAXVA && va % PGSIZE + |data| <= PGSIZE
    requires var e := Lookup(ram, t, va / PGSIZE);
             UserPage(e) && Ppn(e) in ram && forall k :: 0 <= k < |data| ==>
               data[k] == PageByte(ram[Ppn(e)], va % PGSIZE + k)
    ensures Reads(ram, t, va, data)
  {
    hide Good, Lookup, PageByte;
    forall k: nat | k < |data|
      ensures UserAt(ram, t, va + k) == Sees(data[k])
    {
      InPage(va, |data|, va + k);
      assert va + k < MAXVA;
    }
  }

  lemma ReadsMore(ram: Ram, t: Tree, src: nat, out: seq<Byte>, more: seq<Byte>)
    requires Good(ram, t) && Reads(ram, t, src, out) && Reads(ram, t, src + |out|, more)
    ensures Reads(ram, t, src, out + more)
  {
    hide Good, UserAt;
    forall k: nat | k < |out + more|
      ensures UserAt(ram, t, src + k) == Sees((out + more)[k])
    {
      if k >= |out| { assert more[k - |out|] == (out + more)[k]; }
    }
  }

  /** copyin: `len` bytes, or those before the first page the process may not access. */
  method CopyIn(m: Memory, root: nat, srcva: nat, len: nat, ghost t: Tree) returns (r: int, out: seq<Byte>)
    requires m.Holds(t) && root == t.root && Space(m.ram, t, m.free)
    modifies m
    ensures m.Holds(t) && m.ram == old(m.ram) && m.free == old(m.free)
    ensures |out| <= len && r == (if |out| == len then 0 else -1) && Reads(m.ram, t, srcva, out)
    ensures r == -1 ==> UserAt(m.ram, t, srcva + |out|) == Nothing
  {
    hide Good, Lookup, Runs, RunAt, Distinct, PageByte, UserAt, Reads, Space;
    var src, left: nat := srcva, len;
    out := [];
    assert Reads(m.ram, t, srcva, out) by { NothingRead(m.ram, t, srcva); }
    while left > 0
      invariant m.Holds(t) && m.ram == old(m.ram) && m.free == old(m.free)
      invariant |out| + left == len && (left > 0 ==> src == srcva + |out|) && Reads(m.ram, t, srcva, out)
    {
      var va0 := src / PGSIZE * PGSIZE;
      var pa0 := WalkAddr(m, root, va0, t);
      Translated(m.ram, t, m.free, src, pa0);
      if pa0 == 0 {
        return -1, out;
      }
      var n := PGSIZE - (src - va0);
      if n > left {
        n := left;
      }
      var data := MoveIn(m, pa0 + (src - va0), n);
      ReadsPage(m.ram, t, src, data);
      ReadsMore(m.ram, t, srcva, out, data);
      out := out + data;
      left := left - n;
      src := va0 + PGSIZE;
    }
    r := 0;
  }

  lemma NothingRead(ram: Ram, t: Tree, src: nat)
    requires Good(ram, t)
    ensures Reads(ram, t, src, [])
  {
  }

  /** What has been copied out reads back. */
  lemma ReadsBack(ram0: Ram, ram: Ram, t: Tree, va: nat, src: seq<Byte>, out: seq<Byte>)
    requires Good(ram0, t) && Good(ram, t) && Written(ram0, ram, t, va, src, |src|)
    requires Reads(ram, t, va, out) && |out| <= |src|
    requires |out| < |src| ==> UserAt(ram, t, va + |out|) == Nothing   // copyin stops nowhere else
    ensures out == src
  {
    hide UserAt;
    forall k: nat | k < |out|
      ensures out[k] == src[k]
    {
      assert UserAt(ram, t, va + k) == Sees(out[k]);
    }
  }

  /** copyinstr: the bytes before the first NUL, followed by it, provided the process may access
      them and they are no more than `max`; otherwise as many of them as that. */
  method CopyInStr(m: Memory, root: nat, srcva: nat, max0: nat, ghost t: Tree) returns (r: int, out: seq<Byte>)
    requires m.Holds(t) && root == t.root && Space(m.ram, t, m.free)
    modifies m
    ensures m.Holds(t) && m.ram == old(m.ram) && m.free == old(m.free)
    ensures |out| <= max0 && Reads(m.ram, t, srcva, out) && (r == 0 || r == -1)
    ensures r == 0 ==> |out| > 0 && out[|out| - 1] == 0 && 0 !in out[..|out| - 1]
    ensures r == -1 ==> 0 !in out && (|out| == max0 || UserAt(m.ram, t, srcva + |out|) == Nothing)
  {
    hide Good, Lookup, Runs, RunAt, Distinct, PageByte, UserAt, Reads, Space;
    var src, max: nat, gotNull := srcva, max0, false;
    out := [];
    assert Reads(m.ram, t, srcva, out) by { NothingRead(m.ram, t, srcva); }
    while !gotNull && max > 0
      invariant m.Holds(t) && m.ram == old(m.ram) && m.free == old(m.free)
      invariant gotNull ==> 0 < |out| <= max0 && out[|out| - 1] == 0 && 0 !in out[..|out| - 1]
      invariant !gotNull ==> |out| + max == max0 && 0 !in out
      invariant (!gotNull && max > 0 ==> src == srcva + |out|) && Reads(m.ram, t, srcva, out)
      decreases max + if gotNull then 0 else 1
    {
      var va0 := src / PGSIZE * PGSIZE;
      var pa0 := WalkAddr(m, root, va0, t);
      Translated(m.ram, t, m.free, src, pa0);
      if pa0 == 0 {
        return -1, out;
      }
      var n := PGSIZE - (src - va0);
      if n > max {
        n := max;
      }
      var data;
      gotNull, data := TakeString(m, pa0 + (src - va0), n);
      ReadsPage(m.ram, t, src, data);
      ReadsMore(m.ram, t, srcva, out, data);
      assert gotNull ==> (out + data)[..|out + data| - 1] == out + data[..|data| - 1];
      out := out + data;
      max := max - (if gotNull then |data| - 1 else |data|);
      src := va0 + PGSIZE;
    }
    r := if gotNull then 0 else -1;
  }

  /** The inner loop of copyinstr: up to `n0` bytes of a page, ending with the first NUL. */
  method TakeString(m: Memory, pa: nat, n0: nat) returns (gotNull: bool, data: seq<Byte>)
    requires pa / PGSIZE in m.ram && pa % PGSIZE + n0 <= PGSIZE
    ensures |data| <= n0 && forall k :: 0 <= k < |data| ==> data[k] == PageByte(m.ram[pa / PGSIZE], pa % PGSIZE + k)
    ensures gotNull ==> |data| > 0 && data[|data| - 1] == 0 && 0 !in data[..|data| - 1]
    ensures !gotNull ==> |data| == n0 && 0 !in data
  {
    data, gotNull := [], false;
    while |data| < n0
      invariant |data| <= n0 && 0 !in data
      invariant forall k :: 0 <= k < |data| ==> data[k] == PageByte(m.ram[pa / PGSIZE], pa % PGSIZE + k)
    {
      var c := PageByte(m.ram[pa / PGSIZE], pa % PGSIZE + |data|);
      ghost var before := data;
      data := data + [c];
      if c == 0 {
        assert data[..|data| - 1] == before;
        return true, data;
      }
    }
  }

  // ----- what uvmalloc and uvmcopy mean to a process -----

  lemma UserBit(pte: nat)
    ensures pte / 16 % 2 == Flags(pte) / 16 % 2 && Present(pte) == Present(Flags(pte))
  {
    var q, f := pte / 1024, pte % 1024;
    EvenPart(32 * q, f / 16);
    EvenPart(512 * q, f);
    assert pte == q * 1024 + f && pte / 16 == 2 * (32 * q) + f / 16;
  }

  lemma EvenPart(k: nat, x: nat)
    ensures (2 * k + x) % 2 == x % 2
  {
  }

  /** Mapping new frames leaves the rest of the memory as it was, and every page keeps a frame of
      its own. */
  lemma FillSpace(r0: Ram, f0: seq<nat>, t0: Tree, r: Ram, f: seq<nat>, t: Tree,
                  first: nat, data: seq<nat>, perms: seq<nat>, contents: seq<Page>)
    requires Fill(r0, f0, t0, r, f, t, first, data, perms, contents) && first + |data| <= MAXPAGES
    requires Space(r0, t0, f0)
    ensures Space(r, t, f)
    ensures forall va: nat {:trigger UserAt(r, t, va)} ::
              !(first <= va / PGSIZE < first + |data|) ==> UserAt(r, t, va) == UserAt(r0, t0, va)
  {
    hide Good, Lookup, PageByte, Evolved;
    forall n: nat, p: nat | Frame(r, t, n, p)
      ensures if first <= n < first + |data| then p == data[n - first] else Frame(r0, t0, n, p) && p !in data
      ensures p in r && p !in t.owner && p !in f
    {
      FrameOrigin(r0, f0, t0, r, f, t, first, data, perms, contents, n, p);
    }
    forall va: nat | !(first <= va / PGSIZE < first + |data|)
      ensures UserAt(r, t, va) == UserAt(r0, t0, va)
    {
      if va < MAXVA {
        var n := va / PGSIZE;
        assert n < MAXPAGES;
        assert Lookup(r, t, n) == Lookup(r0, t0, n);
        if UserPage(Lookup(r0, t0, n)) { assert Frame(r0, t0, n, Ppn(Lookup(r0, t0, n))); }
      }
    }
  }

  lemma FrameOrigin(r0: Ram, f0: seq<nat>, t0: Tree, r: Ram, f: seq<nat>, t: Tree,
                    first: nat, data: seq<nat>, perms: seq<nat>, contents: seq<Page>, n: nat, p: nat)
    requires Fill(r0, f0, t0, r, f, t, first, data, perms, contents)
    requires Space(r0, t0, f0) && Frame(r, t, n, p)
    ensures if first <= n < first + |data| then p == data[n - first] else Frame(r0, t0, n, p) && p !in data
    ensures p in r && p !in t.owner && p !in f
  {
    hide Good, Lookup, Evolved;
    if first <= n < first + |data| {
      PteRoundTrip(data[n - first], perms[n - first]);
    } else {
      assert Lookup(r, t, n) == Lookup(r0, t0, n);
      assert Frame(r0, t0, n, p);
      assert p !in Pages(f0) + t0.owner.Keys;
      assert p !in Pages(f) + t.owner.Keys + Pages(data);
    }
  }

  /** uvmalloc: the new part of the memory is there and reads as zeros; the process may read, write and
      execute it. */
  lemma NewMemoryIsZero(r0: Ram, f0: seq<nat>, t0: Tree, r: Ram, f: seq<nat>, t: Tree, first: nat, data: seq<nat>,
                        va: nat)
    requires Fill(r0, f0, t0, r, f, t, first, data, Same(USER_RWX, |data|), Same(ZeroPage(), |data|))
             && first + |data| <= MAXPAGES
    requires first * PGSIZE <= va < (first + |data|) * PGSIZE
    ensures UserAt(r, t, va) == Sees(0)
    ensures va / PGSIZE < MAXPAGES && Flags(Lookup(r, t, va / PGSIZE)) == 1 + 2 + 4 + 8 + 16   // V, R, W, X, U
  {
    hide Good, Lookup, Took;
    var n := va / PGSIZE;
    assert first <= n < first + |data|;
    PteRoundTrip(data[n - first], USER_RWX);
    UserBit(MakePte(data[n - first], USER_RWX));
    assert Lookup(r, t, n) == MakePte(data[n - first], USER_RWX);
  }

  /** uvmcopy: the child sees what its parent saw. */
  lemma ChildSeesParent(r0: Ram, f0: seq<nat>, s: Tree, src: seq<nat>, t0: Tree, r: Ram, f: seq<nat>, t: Tree,
                        data: seq<nat>, va: nat)
    requires Good(r0, s) && Mapping(r0, s, 0, src) && Backed(r0, s, f0, src) && |data| == |src|
    requires Fill(r0, f0, t0, r, f, t, 0, data, SourceFlags(r0, s, |data|), Contents(r0, src, |data|))
    requires va < |data| * PGSIZE
    ensures UserAt(r, t, va) == UserAt(r0, s, va)
  {
    hide Good, Lookup, Took, PageByte;
    var n := va / PGSIZE;
    assert n < |data| && n < MAXPAGES;
    var e := Lookup(r0, s, n);
    assert Ppn(e) == src[n] && Present(e);
    PteRoundTrip(data[n], Flags(e));
    UserBit(e);
    UserBit(MakePte(data[n], Flags(e)));
    assert Lookup(r, t, n) == MakePte(data[n], Flags(e));
    assert r[data[n]] == r0[src[n]];
  }
}
