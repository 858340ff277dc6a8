/** queue.c: three FIFO queues threaded through one array.  Entries below NPROC are process
    slots; each queue also has a head and a tail entry. */
module Queue {

  const NPROC: nat := 64
  const NUM_QUEUES: nat := 3
  const QTABLE_SIZE: nat := 70    // NPROC + 2 * NUM_QUEUES
  const QUEUE_HIGH: nat := 2
  const QUEUE_MEDIUM: nat := 1
  const QUEUE_LOW: nat := 0
  const UNLINKED: nat := 999
  const UINT16_MAX: nat := 65535

  datatype QEntry = QEntry(pass: nat, prev: nat, next: nat)

  type Level = q: nat | q < 3

  function Head(q: Level): nat { NPROC + 2 * q }
  function Tail(q: Level): nat { NPROC + 2 * q + 1 }

  /** The three queues, front first, lowest level first. */
  type Lists = s: seq<seq<nat>> | |s| == 3 witness [[], [], []]

  const EMPTY_LISTS: Lists := [[], [], []]

  /** The entries of queue `q` from its head to its tail. */
  function Path(ls: Lists, q: Level): seq<nat> { [Head(q)] + ls[q] + [Tail(q)] }

  /** Entry `x` is followed by entry `y`. */
  predicate Linked(t: seq<QEntry>, x: nat, y: nat) {
    x < |t| && y < |t| && t[x].next == y && t[y].prev == x
  }

  ghost predicate Chain(t: seq<QEntry>, p: seq<nat>) {
    forall k {:trigger Link(t, p, k)} :: 0 <= k < |p| - 1 ==> Link(t, p, k)
  }

  predicate Link(t: seq<QEntry>, p: seq<nat>, k: nat)
    requires k + 1 < |p|
  {
    Linked(t, p[k], p[k + 1])
  }

  /** The slot at position `i` of queue `q`. */
  predicate At(ls: Lists, q: Level, i: nat, x: nat) { i < |ls[q]| && ls[q][i] == x }

  ghost predicate Slots(ls: Lists) {
    && (forall q: Level, i: nat, x: nat {:trigger At(ls, q, i, x)} :: At(ls, q, i, x) ==> x < NPROC)
    && (forall q: Level, i: nat, q': Level, i': nat, x: nat {:trigger At(ls, q, i, x), At(ls, q', i', x)} ::
          At(ls, q, i, x) && At(ls, q', i', x) ==> q == q' && i == i')
  }

  /** The table holds these queues, whatever is in the entries of unlinked slots. */
  ghost predicate Rep(t: seq<QEntry>, ls: Lists) {
    && |t| == QTABLE_SIZE && Slots(ls)
    && forall q: Level :: Chain(t, Path(ls, q))
  }

  predicate Queued(ls: Lists, x: nat) { x in ls[0] || x in ls[1] || x in ls[2] }

  lemma PathsDisjoint(ls: Lists, q: Level, k: nat, q': Level, k': nat)
    requires Slots(ls) && k < |Path(ls, q)| && k' < |Path(ls, q')| && (q != q' || k != k')
    ensures Path(ls, q)[k] != Path(ls, q')[k']
  {
    if 0 < k < |Path(ls, q)| - 1 { assert At(ls, q, k - 1, Path(ls, q)[k]); }
    if 0 < k' < |Path(ls, q')| - 1 { assert At(ls, q', k' - 1, Path(ls, q')[k']); }
  }

  /** A slot in no queue lies on no path. */
  lemma OffPath(ls: Lists, q: Level, k: nat, x: nat)
    requires k < |Path(ls, q)| && x < NPROC && !Queued(ls, x)
    ensures Path(ls, q)[k] != x
  {
    if 0 < k < |Path(ls, q)| - 1 { assert ls[q][k - 1] in ls[q]; }
  }

  // ----- enqueue_back -----

  function Append(ls: Lists, q: Level, x: nat): Lists { ls[q := ls[q] + [x]] }

  lemma AppendSlots(ls: Lists, q: Level, x: nat)
    requires Slots(ls) && x < NPROC && !Queued(ls, x)
    ensures Slots(Append(ls, q, x))
    ensures forall y :: Queued(Append(ls, q, x), y) <==> Queued(ls, y) || y == x
  {
    var ls' := Append(ls, q, x);
    assert forall q': Level, i: nat, y: nat :: At(ls', q', i, y) <==>
           At(ls, q', i, y) || (q' == q && i == |ls[q]| && y == x);
    assert forall q': Level, i: nat :: At(ls, q', i, x) ==> x in ls[q'];
    assert forall q': Level, y: nat :: y in ls'[q'] <==> y in ls[q'] || (q' == q && y == x);
  }

  /** enqueue_back's writes, given that `curr` is the last entry before the tail. */
  function Put(t: seq<QEntry>, q: Level, x: nat, pass: nat, curr: nat): seq<QEntry>
    requires |t| == QTABLE_SIZE && x < NPROC && curr < QTABLE_SIZE
  {
    var t1 := t[x := QEntry(pass, curr, Tail(q))];
    var t2 := t1[curr := t1[curr].(next := x)];
    t2[Tail(q) := t2[Tail(q)].(prev := x)]
  }

  /** The last entry before the tail. */
  function Last(ls: Lists, q: Level): nat { Path(ls, q)[|ls[q]|] }

  lemma LastFacts(t: seq<QEntry>, ls: Lists, q: Level)
    requires Rep(t, ls)
    ensures Last(ls, q) < QTABLE_SIZE && t[Tail(q)].prev == Last(ls, q) && t[Last(ls, q)].next == Tail(q)
  {
    assert Link(t, Path(ls, q), |ls[q]|);
  }

  lemma PutLink(t: seq<QEntry>, ls: Lists, q: Level, x: nat, pass: nat, q': Level, k: nat)
    requires Rep(t, ls) && x < NPROC && !Queued(ls, x) && k + 1 < |Path(Append(ls, q, x), q')|
    ensures Last(ls, q) < QTABLE_SIZE
    ensures Link(Put(t, q, x, pass, Last(ls, q)), Path(Append(ls, q, x), q'), k)
  {
    LastFacts(t, ls, q);
    var p, p', old_last := Path(ls, q'), Path(Append(ls, q, x), q'), |ls[q]|;
    OffPath(ls, q, old_last, x);
    if q' != q || k < old_last {
      assert p'[k] == p[k] && p'[k + 1] == p[k + 1];
      assert Link(t, p, k);
      OffPath(ls, q', k, x);
      OffPath(ls, q', k + 1, x);
      PathsDisjoint(ls, q', k, q, old_last);
      PathsDisjoint(ls, q', k + 1, q, old_last + 1);
    }
  }

  lemma PutRep(t: seq<QEntry>, ls: Lists, q: Level, x: nat, pass: nat)
    requires Rep(t, ls) && x < NPROC && !Queued(ls, x)
    ensures Last(ls, q) < QTABLE_SIZE && Rep(Put(t, q, x, pass, Last(ls, q)), Append(ls, q, x))
  {
    LastFacts(t, ls, q);
    AppendSlots(ls, q, x);
    forall q': Level, k: nat | k < |Path(Append(ls, q, x), q')| - 1
      ensures Link(Put(t, q, x, pass, Last(ls, q)), Path(Append(ls, q, x), q'), k)
    {
      PutLink(t, ls, q, x, pass, q', k);
    }
  }

  method EnqueueBack(t: array<QEntry>, q: Level, x: nat, pass: nat, ghost ls: Lists)
    requires Rep(t[..], ls) && x < NPROC && !Queued(ls, x)
    modifies t
    ensures Rep(t[..], Append(ls, q, x)) && Last(ls, q) < QTABLE_SIZE
            && t[..] == Put(old(t[..]), q, x, pass, Last(ls, q))
  {
    hide Rep;
    TableSize(t[..], ls);
    LastFacts(t[..], ls, q);
    PutRep(t[..], ls, q, x, pass);
    var curr := t[Tail(q)].prev;
    t[x] := t[x].(pass := pass);
    t[x] := t[x].(next := t[curr].next);
    t[x] := t[x].(prev := curr);
    t[curr] := t[curr].(next := x);
    t[t[x].next] := t[t[x].next].(prev := x);
    assert t[..] == Put(old(t[..]), q, x, pass, curr);
  }

  lemma TableSize(t: seq<QEntry>, ls: Lists)
    requires Rep(t, ls)
    ensures |t| == QTABLE_SIZE
  {
  }

  // ----- dequeue -----

  function Pop(ls: Lists, q: Level): Lists
    requires ls[q] != []
  {
    ls[q := ls[q][1..]]
  }

  lemma PopSlots(ls: Lists, q: Level)
    requires Slots(ls) && ls[q] != []
    ensures Slots(Pop(ls, q)) && ls[q][0] < NPROC
    ensures forall y :: Queued(Pop(ls, q), y) <==> Queued(ls, y) && y != ls[q][0]
  {
    var ls', x := Pop(ls, q), ls[q][0];
    assert At(ls, q, 0, x);
    assert forall q': Level, i: nat, y: nat :: At(ls', q', i, y) <==> At(ls, q', if q' == q then i + 1 else i, y);
    forall y
      ensures Queued(ls', y) <==> Queued(ls, y) && y != x
    {
      if Queued(ls', y) {
        var q' := if y in ls'[0] then 0 else if y in ls'[1] then 1 else 2;
        var i :| 0 <= i < |ls'[q']| && ls'[q'][i] == y;
        assert At(ls, q', if q' == q then i + 1 else i, y);
      }
    }
  }

  /** remove_pid's writes for the front `x` of queue `q`, followed by `y`. */
  function Cut(t: seq<QEntry>, q: Level, x: nat, y: nat): seq<QEntry>
    requires |t| == QTABLE_SIZE && x < NPROC && y < QTABLE_SIZE
  {
    var t1 := t[Head(q) := t[Head(q)].(next := y)];
    var t2 := t1[y := t1[y].(prev := Head(q))];
    t2[x := t2[x].(next := UNLINKED, prev := UNLINKED)]
  }

  lemma FrontFacts(t: seq<QEntry>, ls: Lists, q: Level)
    requires Rep(t, ls)
    ensures var x := Path(ls, q)[1]; x < QTABLE_SIZE && t[Head(q)].next == x && t[x].prev == Head(q)
    ensures ls[q] != [] ==>
              Path(ls, q)[1] == ls[q][0] < NPROC && Path(ls, q)[2] < QTABLE_SIZE && t[ls[q][0]].next == Path(ls, q)[2]
  {
    assert Link(t, Path(ls, q), 0);
    if ls[q] != [] {
      assert Link(t, Path(ls, q), 1);
      assert At(ls, q, 0, ls[q][0]);
    }
  }

  lemma CutLink(t: seq<QEntry>, ls: Lists, q: Level, q': Level, k: nat)
    requires Rep(t, ls) && ls[q] != [] && k + 1 < |Path(Pop(ls, q), q')|
    ensures ls[q][0] < NPROC && Path(ls, q)[2] < QTABLE_SIZE
    ensures Link(Cut(t, q, ls[q][0], Path(ls, q)[2]), Path(Pop(ls, q), q'), k)
  {
    FrontFacts(t, ls, q);
    var p, p' := Path(ls, q'), Path(Pop(ls, q), q');
    var i := if q' == q then k + 1 else k;
    PathsDisjoint(ls, q', i + 1, q, 1);
    if q' != q || k > 0 {
      assert p'[k] == p[i] && p'[k + 1] == p[i + 1];
      assert Link(t, p, i);
      PathsDisjoint(ls, q', i, q, 1);
      PathsDisjoint(ls, q', i, q, 0);
      PathsDisjoint(ls, q', i + 1, q, 2);
    }
  }

  lemma CutRep(t: seq<QEntry>, ls: Lists, q: Level)
    requires Rep(t, ls) && ls[q] != []
    ensures ls[q][0] < NPROC && Path(ls, q)[2] < QTABLE_SIZE
    ensures Rep(Cut(t, q, ls[q][0], Path(ls, q)[2]), Pop(ls, q))
  {
    FrontFacts(t, ls, q);
    PopSlots(ls, q);
    forall q': Level, k: nat | k < |Path(Pop(ls, q), q')| - 1
      ensures Link(Cut(t, q, ls[q][0], Path(ls, q)[2]), Path(Pop(ls, q), q'), k)
    {
      CutLink(t, ls, q, q', k);
    }
  }

  /** The highest queue that holds a process. */
  function Top(ls: Lists): (q: Level)
    requires ls != EMPTY_LISTS
    ensures ls[q] != [] && forall q': Level :: q' > q ==> ls[q'] == []
  {
    if ls[2] != [] then 2 else if ls[1] != [] then 1 else assert ls[0] != []; 0
  }

  /** firstid(gethead(q)) < NPROC, as the macro nonempty has it. */
  lemma NonEmptyTest(t: seq<QEntry>, ls: Lists, q: Level)
    requires Rep(t, ls)
    ensures |t| == QTABLE_SIZE && (t[Head(q)].next < NPROC <==> ls[q] != [])
  {
    FrontFacts(t, ls, q);
  }

  /** The entries remove_pid(x) writes to exist. */
  predicate Unlinkable(t: seq<QEntry>, x: nat) { x < |t| && t[x].prev < |t| && t[x].next < |t| }

  /** remove_pid's writes, whatever the links of `x` are. */
  function Unlink(t: seq<QEntry>, x: nat): (r: seq<QEntry>)
    requires Unlinkable(t, x)
    ensures |r| == |t| && r[x].prev == r[x].next == UNLINKED
  {
    var t1 := t[t[x].prev := t[t[x].prev].(next := t[x].next)];
    // if x is its own predecessor its next field is what it was
    var t2 := t1[t1[x].next := t1[t1[x].next].(prev := t1[x].prev)];
    t2[x := t2[x].(next := UNLINKED, prev := UNLINKED)]
  }

  /** remove_pid, of any slot; false stands for a write outside the table. */
  method RemovePid(t: array<QEntry>, x: nat) returns (ok: bool)
    requires t.Length == QTABLE_SIZE && x < NPROC
    modifies t
    ensures ok <==> Unlinkable(old(t[..]), x)
    ensures t[..] == if ok then Unlink(old(t[..]), x) else old(t[..])
  {
    if t[x].prev >= QTABLE_SIZE || t[x].next >= QTABLE_SIZE {
      return false;
    }
    t[t[x].prev] := t[t[x].prev].(next := t[x].next);
    t[t[x].next] := t[t[x].next].(prev := t[x].prev);
    t[x] := t[x].(next := UNLINKED);
    t[x] := t[x].(prev := UNLINKED);
    ok := true;
  }

  /** For the front of a queue these are the writes that cut it out. */
  lemma UnlinkFront(t: seq<QEntry>, ls: Lists, q: Level)
    requires Rep(t, ls) && ls[q] != []
    ensures ls[q][0] < NPROC && Unlinkable(t, ls[q][0]) && Rep(Unlink(t, ls[q][0]), Pop(ls, q))
  {
    FrontFacts(t, ls, q);
    FrontOfPath(t, ls, q);
    CutRep(t, ls, q);
    assert Unlink(t, ls[q][0]) == Cut(t, q, ls[q][0], Path(ls, q)[2]);
  }

  lemma FrontOfPath(t: seq<QEntry>, ls: Lists, q: Level)
    requires Rep(t, ls) && ls[q] != []
    ensures Path(ls, q)[0] == Head(q) && Path(ls, q)[2] != Head(q) && Path(ls, q)[2] != ls[q][0] && Head(q) != ls[q][0]
  {
    PathsDisjoint(ls, q, 2, q, 0);
    PathsDisjoint(ls, q, 2, q, 1);
    PathsDisjoint(ls, q, 1, q, 0);
  }

  const UINT64: nat := 0x1_0000_0000_0000_0000

  /** What a call of dequeue comes to: a slot taken from the table; a slot taken although its
      links lead outside the table, where remove_pid then writes; or a look at an entry outside
      the table. */
  datatype Dequeued = Took(x: nat) | WildWrite(x: nat) | WildRead(idx: nat)

  /** dequeue on any table that holds queues.  It is right exactly when some queue holds a
      process: then it takes the front of the highest such queue.  Its counter is unsigned, so
      on an empty table it does not stop at the lowest queue but goes on through the process
      entries. */
  method Dequeue(t: array<QEntry>, ghost ls: Lists) returns (r: Dequeued)
    requires Rep(t[..], ls)
    modifies t
    ensures ls != EMPTY_LISTS ==> r == Took(ls[Top(ls)][0]) && Rep(t[..], Pop(ls, Top(ls)))
    ensures ls == EMPTY_LISTS ==> r == Strays(old(t[..]), NPROC - 2)
    ensures (r.Took? && Queued(ls, r.x)) <==> ls != EMPTY_LISTS
    ensures r.Took? ==> r.x < NPROC
    ensures t[..] == if r.Took? && Unlinkable(old(t[..]), r.x) then Unlink(old(t[..]), r.x) else old(t[..])
  {
    hide Rep, Counter, Probe, Strays, Unlink;
    TableSize(t[..], ls);
    var i := QUEUE_HIGH;
    var idx := NPROC + 2 * i;
    ghost var k := 0;
    ProbeAt(0);
    while idx < QTABLE_SIZE && t[idx].next >= NPROC   // i >= QUEUE_LOW always holds
      invariant t[..] == old(t[..]) && k <= 35 && i == Counter(k) && idx == Probe(k) && Searched(t[..], ls, k)
      decreases 35 - k
    {
      SearchOn(t[..], ls, k);
      i := (i + UINT64 - 1) % UINT64;
      idx := (NPROC + 2 * i) % UINT64;
      k := k + 1;
    }
    SearchEnds(t[..], ls, k);
    if idx >= QTABLE_SIZE {
      return WildRead(idx);
    }
    var x := t[idx].next;
    var ok := RemovePid(t, x);
    r := if ok then Took(x) else WildWrite(x);
  }

  /** Dequeue has come to its probe `k`. */
  ghost predicate Searched(t: seq<QEntry>, ls: Lists, k: nat)
    requires |t| == QTABLE_SIZE
  {
    if k < 3 then forall q: Level :: q > 2 - k ==> ls[q] == []
    else ls == EMPTY_LISTS && Strays(t, NPROC - 2) == Strays(t, 68 - 2 * k)
  }

  lemma SearchOn(t: seq<QEntry>, ls: Lists, k: nat)
    requires Rep(t, ls) && k <= 35 && Searched(t, ls, k) && Probe(k) < QTABLE_SIZE && t[Probe(k)].next >= NPROC
    ensures k < 35 && Searched(t, ls, k + 1)
    ensures Counter(k + 1) == (Counter(k) + UINT64 - 1) % UINT64
            && Probe(k + 1) == (NPROC + 2 * Counter(k + 1)) % UINT64
  {
    ProbeAt(k);
    if k < 3 { NonEmptyTest(t, ls, 2 - k); }
    if k == 2 { assert ls == EMPTY_LISTS; }
  }

  lemma SearchEnds(t: seq<QEntry>, ls: Lists, k: nat)
    requires Rep(t, ls) && k <= 35 && Searched(t, ls, k) && (Probe(k) < QTABLE_SIZE ==> t[Probe(k)].next < NPROC)
    ensures Probe(k) >= QTABLE_SIZE ==> ls == EMPTY_LISTS && Strays(t, NPROC - 2) == WildRead(Probe(k))
    ensures Probe(k) < QTABLE_SIZE ==>
              var x := t[Probe(k)].next;
              if ls == EMPTY_LISTS then Strays(t, NPROC - 2) == if Unlinkable(t, x) then Took(x) else WildWrite(x)
              else x == ls[Top(ls)][0] && Queued(ls, x) && Unlinkable(t, x) && Rep(Unlink(t, x), Pop(ls, Top(ls)))
  {
    ProbeAt(k);
    if k < 3 {
      NonEmptyTest(t, ls, 2 - k);
      FrontFacts(t, ls, 2 - k);
      UnlinkFront(t, ls, 2 - k);
      assert ls[2 - k][0] in ls[2 - k];
      assert EMPTY_LISTS[2 - k] == [];
    }
  }

  /** The loop counter of dequeue after `k` rounds: an unsigned 64-bit number, for which
      the test i >= QUEUE_LOW always succeeds. */
  function Counter(k: nat): nat { if k == 0 then QUEUE_HIGH else (Counter(k - 1) + UINT64 - 1) % UINT64 }

  /** NPROC + (i << 1), in 64 bits. */
  function Probe(k: nat): nat { (NPROC + 2 * Counter(k)) % UINT64 }

  /** The three heads, then the even process entries downwards, then far outside the table. */
  lemma {:induction false} ProbeAt(k: nat)
    requires k <= 35
    ensures Counter(k) == if k < 3 then 2 - k else UINT64 + 2 - k
    ensures Probe(k) == if k < 3 then Head(2 - k) else if k < 35 then 68 - 2 * k else UINT64 - 2
  {
    if k > 0 {
      ProbeAt(k - 1);
      Decrement(Counter(k - 1));
    }
    if k >= 3 {
      var d := 68 - 2 * k;
      Wraps(d);
    }
  }

  lemma Decrement(i: nat)
    requires i < UINT64
    ensures (i + UINT64 - 1) % UINT64 == if i == 0 then UINT64 - 1 else i - 1
  {
  }

  lemma Wraps(d: int)
    requires 0 <= UINT64 + d && d < UINT64
    ensures (2 * UINT64 + d) % UINT64 == if d < 0 then UINT64 + d else d
  {
  }

  /** What dequeue does with an empty table once it looks at process entry `e`: it follows the
      stale link of the first even entry, downwards, that seems to lead to a process. */
  function Strays(t: seq<QEntry>, e: int): Dequeued
    requires |t| == QTABLE_SIZE && e < NPROC
    decreases e + 2
  {
    if e < 0 then WildRead(UINT64 - 2)
    else if t[e].next < NPROC then
      if Unlinkable(t, t[e].next) then Took(t[e].next) else WildWrite(t[e].next)
    else Strays(t, e - 2)
  }

  /** Entry `e` is the one whose stale link dequeue follows. */
  predicate Misleads(t: seq<QEntry>, e: nat)
    requires |t| == QTABLE_SIZE
  {
    && e < NPROC && e % 2 == 0 && t[e].next < NPROC
    && forall d: nat {:trigger t[d]} :: e < d < NPROC && d % 2 == 0 ==> t[d].next >= NPROC
  }

  /** An empty table is never recognised: dequeue takes the slot that the highest even entry
      with a stale link names, and reads outside the table exactly when there is no such entry. */
  lemma EmptyTableIsNotDetected(t: seq<QEntry>)
    requires Rep(t, EMPTY_LISTS)
    ensures var r := Strays(t, NPROC - 2);
            && (r == WildRead(UINT64 - 2) <==> forall e: nat {:trigger t[e]} :: e < NPROC && e % 2 == 0 ==>
               t[e].next >= NPROC)
            && (r.WildRead? ==> r == WildRead(UINT64 - 2))
            && forall e: nat {:trigger Misleads(t, e)} :: Misleads(t, e) ==>
                 r == if Unlinkable(t, t[e].next) then Took(t[e].next) else WildWrite(t[e].next)
  {
    StraysFrom(t, NPROC - 2);
  }

  lemma {:induction false} StraysFrom(t: seq<QEntry>, e: int)
    requires |t| == QTABLE_SIZE && -2 <= e < NPROC && e % 2 == 0
    requires forall d: nat {:trigger t[d]} :: e < d < NPROC && d % 2 == 0 ==> t[d].next >= NPROC
    ensures var r := Strays(t, e);
            && (r.WildRead? <==> forall d: nat {:trigger t[d]} :: d < NPROC && d % 2 == 0 ==> t[d].next >= NPROC)
            && (r.WildRead? ==> r == WildRead(UINT64 - 2))
            && forall d: nat {:trigger Misleads(t, d)} :: Misleads(t, d) ==>
                 r == if Unlinkable(t, t[d].next) then Took(t[d].next) else WildWrite(t[d].next)
    decreases e + 2
  {
    if e >= 0 && t[e].next >= NPROC {
      StraysFrom(t, e - 2);
    } else if e >= 0 {
      assert t[e].next < NPROC;
    }
  }

  /** Such a table is what the kernel comes to: the zeroed table is initialized, init is queued
      and dispatched, and goes to sleep.  The next dequeue takes slot 0 although it is in no
      queue, and its links, which remove_pid has just cleared, make remove_pid write to
      entry 999. */
  lemma IdleTable(t: seq<QEntry>, q: Level, pass: nat) returns (t1: seq<QEntry>, t2: seq<QEntry>)
    requires Rep(t, EMPTY_LISTS) && forall x: nat {:trigger t[x]} :: x < NPROC ==> t[x] == QEntry(0, 0, 0)
    ensures t1 == Put(t, q, 0, pass, Head(q)) && Rep(t1, Append(EMPTY_LISTS, q, 0))     // enqueue_back
    ensures Unlinkable(t1, 0) && t2 == Unlink(t1, 0) && Rep(t2, EMPTY_LISTS)            // dequeue
    ensures Strays(t2, NPROC - 2) == WildWrite(0) && t2[0].prev == UNLINKED >= QTABLE_SIZE
  {
    PutRep(t, EMPTY_LISTS, q, 0, pass);
    t1 := Put(t, q, 0, pass, Head(q));
    var ls := Append(EMPTY_LISTS, q, 0);
    UnlinkFront(t1, ls, q);
    t2 := Unlink(t1, 0);
    forall k | 0 <= k < 3
      ensures Pop(ls, q)[k] == EMPTY_LISTS[k]
    {
      assert EMPTY_LISTS[k] == [];
    }
    assert Pop(ls, q) == EMPTY_LISTS;
    assert t1[0].prev == Head(q) && t1[0].next == Tail(q);
    assert t2[62] == t1[62] == t[62] == QEntry(0, 0, 0);
  }

  // ----- initialize -----

  predicate Anchored(t: seq<QEntry>, q: Level)
    requires |t| == QTABLE_SIZE
  {
    t[Head(q)].next == Tail(q) && t[Tail(q)].prev == Head(q)
  }

  lemma AnchoredRep(t: seq<QEntry>)
    requires |t| == QTABLE_SIZE && forall q: Level :: Anchored(t, q)
    ensures Rep(t, EMPTY_LISTS)
  {
    forall q: Level, k: nat | k < |Path(EMPTY_LISTS, q)| - 1
      ensures Link(t, Path(EMPTY_LISTS, q), k)
    {
      assert Anchored(t, q);
    }
  }

  /** initialize: three empty queues, whatever links the table held before. */
  method Initialize(t: array<QEntry>)
    requires t.Length == QTABLE_SIZE
    modifies t
    ensures Rep(t[..], EMPTY_LISTS)
    ensures forall x :: 0 <= x < NPROC ==> t[x] == old(t[x])
  {
    var i := QTABLE_SIZE - 2 * NUM_QUEUES;
    while i < QTABLE_SIZE
      invariant NPROC <= i <= QTABLE_SIZE && i % 2 == 0
      invariant forall q: Level :: Tail(q) < i ==> Anchored(t[..], q)
      invariant forall x :: 0 <= x < NPROC ==> t[x] == old(t[x])
    {
      t[i] := t[i].(next := i + 1);
      t[i + 1] := t[i + 1].(prev := i);
      t[i] := t[i].(pass := 0);
      t[i + 1] := t[i + 1].(pass := UINT16_MAX);
      i := i + 2;
    }
    AnchoredRep(t[..]);
  }
}
