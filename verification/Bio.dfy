/** bio.c: the buffer cache, a ring of buffers in the order they were last released. */
module Bio {

  const NBUF: nat := 30
  const HEAD: nat := 30      // the ring's head, one past the buffers

  type Data = seq<nat>

  /** Buffers from most to least recently released. */
  function Path(order: seq<nat>): seq<nat> { [HEAD] + order + [HEAD] }

  predicate Link(nx: seq<nat>, pv: seq<nat>, p: seq<nat>, k: nat)
    requires k + 1 < |p|
  {
    p[k] < |nx| && p[k + 1] < |pv| && nx[p[k]] == p[k + 1] && pv[p[k + 1]] == p[k]
  }

  /** The buffer at position `i`. */
  predicate At(order: seq<nat>, i: nat, x: nat) { i < |order| && order[i] == x }

  ghost predicate Once(order: seq<nat>) {
    && (forall i: nat, x: nat {:trigger At(order, i, x)} :: At(order, i, x) ==> x < NBUF)
    && (forall i: nat, j: nat, x: nat {:trigger At(order, i, x), At(order, j, x)} ::
       At(order, i, x) && At(order, j, x) ==> i == j)
  }

  /** The next and prev links form one ring through the head and the buffers of `order`. */
  ghost predicate Ring(nx: seq<nat>, pv: seq<nat>, order: seq<nat>) {
    && |nx| == |pv| == NBUF + 1 && Once(order)
    && forall k: nat {:trigger Link(nx, pv, Path(order), k)} :: k <= |order| ==> Link(nx, pv, Path(order), k)
  }

  lemma PathDistinct(order: seq<nat>, j: nat, k: nat)
    requires Once(order) && j < k <= |order| + 1 && (j > 0 || k <= |order|)
    ensures Path(order)[j] != Path(order)[k] && (k <= |order| ==> Path(order)[k] < NBUF)
  {
    if k <= |order| { assert At(order, k - 1, order[k - 1]); }
    if 0 < j { assert At(order, j - 1, order[j - 1]); }
  }

  function Without(order: seq<nat>, i: nat): seq<nat>
    requires i < |order|
  {
    order[..i] + order[i + 1..]
  }

  /** The links after a buffer has been taken out of the ring. */
  function CutNext(nx: seq<nat>, pv: seq<nat>, x: nat): seq<nat>
    requires x < |nx| == |pv| && pv[x] < |nx|
  {
    nx[pv[x] := nx[x]]
  }

  function CutPrev(nx: seq<nat>, pv: seq<nat>, x: nat): seq<nat>
    requires x < |nx| == |pv| && nx[x] < |pv|
  {
    pv[nx[x] := pv[x]]
  }

  lemma Around(nx: seq<nat>, pv: seq<nat>, order: seq<nat>, i: nat)
    requires Ring(nx, pv, order) && i < |order|
    ensures order[i] < NBUF && nx[order[i]] == Path(order)[i + 2] <= NBUF && pv[order[i]] == Path(order)[i] <= NBUF
  {
    assert Link(nx, pv, Path(order), i) && Link(nx, pv, Path(order), i + 1);
    assert At(order, i, order[i]);
    assert i + 1 < |order| ==> At(order, i + 1, order[i + 1]);
    assert i > 0 ==> At(order, i - 1, order[i - 1]);
  }

  lemma WithoutDistinct(order: seq<nat>, i: nat)
    requires Once(order) && i < |order|
    ensures Once(Without(order, i))
  {
    assert forall j: nat, x: nat :: At(Without(order, i), j, x) ==> At(order, if j < i then j else j + 1, x);
  }

  lemma CutRing(nx: seq<nat>, pv: seq<nat>, order: seq<nat>, i: nat)
    requires Ring(nx, pv, order) && i < |order|
    ensures var x := order[i];
            && x < NBUF && nx[x] <= NBUF && pv[x] <= NBUF
            && Ring(CutNext(nx, pv, x), CutPrev(nx, pv, x), Without(order, i))
  {
    var x := order[i];
    Around(nx, pv, order, i);
    WithoutDistinct(order, i);
    var nx', pv', p, p' := CutNext(nx, pv, x), CutPrev(nx, pv, x), Path(order), Path(Without(order, i));
    forall k: nat | k <= |order| - 1
      ensures Link(nx', pv', p', k)
    {
      if k < i {
        assert Link(nx, pv, p, k) && p'[k] == p[k] && p'[k + 1] == p[k + 1];
        PathDistinct(order, k, i);
        PathDistinct(order, k + 1, i + 2);
      } else if k > i {
        assert Link(nx, pv, p, k + 1) && p'[k] == p[k + 1] && p'[k + 1] == p[k + 2];
        PathDistinct(order, i, k + 1);
        PathDistinct(order, i + 2, k + 2);
      }
    }
  }

  /** Putting `x` right after the head. */
  function FrontNext(nx: seq<nat>, x: nat): seq<nat>
    requires x < |nx| && HEAD < |nx|
  {
    nx[x := nx[HEAD]][HEAD := x]
  }

  function FrontPrev(nx: seq<nat>, pv: seq<nat>, x: nat): seq<nat>
    requires x < |pv| && HEAD < |nx| && nx[HEAD] < |pv|
  {
    pv[x := HEAD][nx[HEAD] := x]
  }

  lemma FrontRing(nx: seq<nat>, pv: seq<nat>, order: seq<nat>, x: nat)
    requires Ring(nx, pv, order) && x < NBUF && x !in order
    ensures nx[HEAD] <= NBUF && Ring(FrontNext(nx, x), FrontPrev(nx, pv, x), [x] + order)
  {
    var p, p' := Path(order), Path([x] + order);
    assert Link(nx, pv, p, 0);
    assert |order| > 0 ==> At(order, 0, order[0]);
    assert forall j: nat, y: nat :: At([x] + order, j, y) ==> (j == 0 && y == x) || (j > 0 && At(order, j - 1, y));
    assert forall j: nat :: At(order, j, x) ==> x in order;
    var nx', pv' := FrontNext(nx, x), FrontPrev(nx, pv, x);
    forall k: nat | k <= |order| + 1
      ensures Link(nx', pv', p', k)
    {
      assert k > 0 ==> p'[k + 1] == p[k];
      assert k > 1 ==> p'[k] == p[k - 1];
      if k > 1 {
        assert Link(nx, pv, p, k - 1);
        PathDistinct(order, 0, k - 1);
        PathDistinct(order, 1, k);
        assert p[k - 1] != x && p[k] != x by {
          assert order[k - 2] in order;
          assert k <= |order| ==> order[k - 1] in order;
        }
      }
    }
  }

  // ----- what the buffers hold -----

  datatype Buf = Buf(valid: bool, dev: nat, blockno: nat, refcnt: nat, data: Data)

  type Key = (nat, nat)   // device and block number

  /** `held`, `waiting`, `leaving` and `pins` say why a buffer is referred to: its lock is held, a
      process has looked it up and not locked it yet, a process has unlocked it and not given its
      reference up yet, the log keeps it.  `dirty` buffers have been
      changed and not written; `stamp` says when a buffer was last released. */
  datatype Cache = Cache(bufs: seq<Buf>, order: seq<nat>, stamp: seq<nat>, clock: nat, held: set<nat>,
                         waiting: seq<nat>, leaving: seq<nat>, pins: seq<nat>, dirty: set<nat>, disk: map<Key, Data>)

  predicate Sized(v: Cache) { |v.bufs| == |v.stamp| == |v.waiting| == |v.leaving| == |v.pins| == NBUF }

  function KeyOf(b: Buf): Key { (b.dev, b.blockno) }

  predicate Cached(v: Cache, x: nat, k: Key)
    requires Sized(v)
  {
    x < NBUF && v.bufs[x].valid && KeyOf(v.bufs[x]) == k
  }

  /** References are accounted for; a buffer not dirty is a copy of its block; a dirty one is
      locked or pinned. */
  predicate BufOk(v: Cache, x: nat)
    requires Sized(v) && x < NBUF
  {
    var b := v.bufs[x];
    && b.refcnt == v.waiting[x] + (if x in v.held then 1 else 0) + v.leaving[x] + v.pins[x]
    && v.stamp[x] <= v.clock && x in v.order
    && (x in v.dirty ==> b.valid && (x in v.held || v.pins[x] > 0))
    && (b.valid ==> b.dev != 0 && KeyOf(b) in v.disk)
    && (b.valid && x !in v.dirty ==> b.data == v.disk[KeyOf(b)])
    && (b.refcnt > 0 ==> b.dev != 0 && KeyOf(b) in v.disk)
  }

  /** No two buffers are for the same block. */
  predicate Alone(v: Cache, x: nat, y: nat)
    requires Sized(v) && x < NBUF && y < NBUF
  {
    x != y && v.bufs[x].dev != 0 ==> KeyOf(v.bufs[x]) != KeyOf(v.bufs[y])
  }

  /** The ring is sorted by time of release. */
  predicate Sorted(v: Cache, i: nat, j: nat)
    requires Sized(v) && i < |v.order| && j < |v.order|
  {
    i < j && v.order[i] < NBUF && v.order[j] < NBUF ==> v.stamp[v.order[i]] > v.stamp[v.order[j]]
  }

  ghost predicate Good(v: Cache) {
    && Sized(v) && Once(v.order)
    && (forall x: nat {:trigger BufOk(v, x)} :: x < NBUF ==> BufOk(v, x))
    && (forall x: nat, y: nat {:trigger Alone(v, x, y)} :: x < NBUF && y < NBUF ==> Alone(v, x, y))
    && (forall i: nat, j: nat {:trigger Sorted(v, i, j)} :: i < |v.order| && j < |v.order| ==> Sorted(v, i, j))
  }

  /** What a block's contents are now: in its buffer if it has a valid one, else on disk. */
  ghost function Latest(v: Cache, k: Key): Data
    requires Good(v) && k in v.disk
  {
    if exists x: nat :: Cached(v, x, k) then v.bufs[Holder(v, k)].data else v.disk[k]
  }

  ghost function Holder(v: Cache, k: Key): (x: nat)
    requires Sized(v) && exists x: nat :: Cached(v, x, k)
    ensures Cached(v, x, k)
  {
    var x: nat :| Cached(v, x, k); x
  }

  lemma LatestIn(v: Cache, x: nat, k: Key)
    requires Good(v) && k in v.disk && Cached(v, x, k)
    ensures Latest(v, k) == v.bufs[x].data
  {
    var y := Holder(v, k);
    assert Alone(v, x, y) && BufOk(v, x);
  }

  /** Nothing that could be read has changed. */
  ghost predicate SameLatest(v: Cache, v': Cache)
    requires Good(v) && Good(v')
  {
    v'.disk.Keys == v.disk.Keys && forall k {:trigger Latest(v', k)} :: k in v.disk ==> Latest(v', k) == Latest(v, k)
  }

  // ----- steps on one buffer -----

  function Set(v: Cache, x: nat, b: Buf): Cache
    requires x < |v.bufs|
  {
    v.(bufs := v.bufs[x := b])
  }

  /** A reader finds its block in buffer `x`. */
  function Hit(v: Cache, x: nat): Cache
    requires Sized(v) && x < NBUF
  {
    Set(v, x, v.bufs[x].(refcnt := v.bufs[x].refcnt + 1)).(waiting := v.waiting[x := v.waiting[x] + 1])
  }

  /** Buffer `x` is recycled for another block. */
  function Recycle(v: Cache, x: nat, k: Key): Cache
    requires Sized(v) && x < NBUF
  {
    Set(v, x, v.bufs[x].(dev := k.0, blockno := k.1, valid := false, refcnt := 1))
    .(waiting := v.waiting[x := v.waiting[x] + 1])
  }

  function Locked(v: Cache, x: nat): Cache
    requires Sized(v) && x < NBUF && v.waiting[x] > 0
  {
    v.(waiting := v.waiting[x := v.waiting[x] - 1], held := v.held + {x})
  }

  /** The block is read into buffer `x`. */
  function Filled(v: Cache, x: nat): Cache
    requires Sized(v) && x < NBUF && KeyOf(v.bufs[x]) in v.disk
  {
    Set(v, x, v.bufs[x].(data := v.disk[KeyOf(v.bufs[x])], valid := true))
  }

  function Changed(v: Cache, x: nat, d: Data): Cache
    requires Sized(v) && x < NBUF
  {
    Set(v, x, v.bufs[x].(data := d)).(dirty := v.dirty + {x})
  }

  function Written(v: Cache, x: nat): Cache
    requires Sized(v) && x < NBUF
  {
    v.(disk := v.disk[KeyOf(v.bufs[x]) := v.bufs[x].data], dirty := v.dirty - {x})
  }

  function Pinned(v: Cache, x: nat, up: bool): Cache
    requires Sized(v) && x < NBUF && (up || (v.pins[x] > 0 && v.bufs[x].refcnt > 0))
  {
    var (r, p) := if up then (v.bufs[x].refcnt + 1, v.pins[x] + 1) else (v.bufs[x].refcnt - 1, v.pins[x] - 1);
    Set(v, x, v.bufs[x].(refcnt := r)).(pins := v.pins[x := p])
  }

  /** releasesleep. */
  function Unlocked(v: Cache, x: nat): Cache
    requires Sized(v) && x < NBUF
  {
    v.(held := v.held - {x}, leaving := v.leaving[x := v.leaving[x] + 1])
  }

  /** The rest of brelse without the move to the front: the reference is given up. */
  function Left(v: Cache, x: nat): Cache
    requires Sized(v) && x < NBUF && v.bufs[x].refcnt > 0 && v.leaving[x] > 0
  {
    Set(v, x, v.bufs[x].(refcnt := v.bufs[x].refcnt - 1)).(leaving := v.leaving[x := v.leaving[x] - 1])
  }

  /** The move to the front. */
  function ToFront(v: Cache, i: nat): Cache
    requires Sized(v) && i < |v.order| && v.order[i] < NBUF
  {
    var x := v.order[i];
    v.(order := [x] + Without(v.order, i), stamp := v.stamp[x := v.clock + 1], clock := v.clock + 1)
  }

  /** What every step on buffer `x` that leaves the ring alone has to keep. */
  ghost predicate Near(v: Cache, v': Cache, x: nat) {
    && Sized(v) && Sized(v') && x < NBUF && v'.order == v.order && v'.stamp == v.stamp && v'.clock == v.clock
    && (forall y: nat {:trigger v'.bufs[y]} :: y < NBUF && y != x ==>
          v'.bufs[y] == v.bufs[y] && v'.waiting[y] == v.waiting[y] && v'.leaving[y] == v.leaving[y]
            && v'.pins[y] == v.pins[y]
          && (y in v'.held <==> y in v.held) && (y in v'.dirty <==> y in v.dirty))
    && v'.disk.Keys == v.disk.Keys
    && (forall k {:trigger v'.disk[k]} :: k in v.disk && k != KeyOf(v.bufs[x]) ==> v'.disk[k] == v.disk[k])
  }

  lemma NearGood(v: Cache, v': Cache, x: nat)
    requires Good(v) && Near(v, v', x) && BufOk(v', x) && (v'.disk != v.disk ==> v.bufs[x].dev != 0)
    requires forall y: nat {:trigger Alone(v', x, y)} :: y < NBUF ==> Alone(v', x, y) && Alone(v', y, x)
    ensures Good(v')
  {
    forall y: nat | y < NBUF
      ensures BufOk(v', y)
    {
      assert BufOk(v, y) && Alone(v, x, y);
      assert y != x ==> v'.bufs[y] == v.bufs[y];
    }
    forall y: nat, z: nat | y < NBUF && z < NBUF
      ensures Alone(v', y, z)
    {
      assert Alone(v, y, z) && Alone(v', x, y) && Alone(v', x, z);
    }
    forall i: nat, j: nat | i < |v'.order| && j < |v'.order|
      ensures Sorted(v', i, j)
    {
      assert Sorted(v, i, j);
    }
  }

  /** A step that changes neither keys nor contents. */
  lemma NearSame(v: Cache, v': Cache, x: nat)
    requires Good(v) && Near(v, v', x) && BufOk(v', x) && v'.disk == v.disk
    requires KeyOf(v'.bufs[x]) == KeyOf(v.bufs[x]) && v'.bufs[x].valid == v.bufs[x].valid
             && v'.bufs[x].data == v.bufs[x].data
    ensures Good(v') && SameLatest(v, v')
  {
    forall y: nat | y < NBUF
      ensures Alone(v', x, y) && Alone(v', y, x)
    {
      assert Alone(v, x, y) && Alone(v, y, x);
    }
    NearGood(v, v', x);
    forall k | k in v.disk
      ensures Latest(v', k) == Latest(v, k)
    {
      SameReads(v, v', k);
    }
  }

  lemma SameReads(v: Cache, v': Cache, k: Key)
    requires Good(v) && Good(v') && k in v.disk && k in v'.disk && v'.disk[k] == v.disk[k]
    requires forall y: nat {:trigger Cached(v', y, k)} {:trigger Cached(v, y, k)} :: y < NBUF ==>
               (Cached(v', y, k) <==> Cached(v, y, k)) && (Cached(v, y, k) ==> v'.bufs[y].data == v.bufs[y].data)
    ensures Latest(v', k) == Latest(v, k)
  {
    if y: nat :| Cached(v, y, k) {
      assert Cached(v', y, k);
      LatestIn(v, y, k);
      LatestIn(v', y, k);
    }
  }

  lemma HitKeeps(v: Cache, x: nat)
    requires Good(v) && x < NBUF && v.bufs[x].dev != 0 && KeyOf(v.bufs[x]) in v.disk
    ensures Good(Hit(v, x)) && SameLatest(v, Hit(v, x))
  {
    assert BufOk(v, x);
    NearSame(v, Hit(v, x), x);
  }

  lemma LockedKeeps(v: Cache, x: nat)
    requires Good(v) && x < NBUF && v.waiting[x] > 0 && x !in v.held
    ensures Good(Locked(v, x)) && SameLatest(v, Locked(v, x))
  {
    assert BufOk(v, x);
    NearSame(v, Locked(v, x), x);
  }

  lemma PinnedKeeps(v: Cache, x: nat, up: bool)
    requires Good(v) && x < NBUF && (if up then v.bufs[x].refcnt > 0 else v.pins[x] > 0)
    requires !up && x in v.dirty ==> x in v.held || v.pins[x] > 1
    ensures v.bufs[x].refcnt > 0 && Good(Pinned(v, x, up)) && SameLatest(v, Pinned(v, x, up))
  {
    assert BufOk(v, x);
    NearSame(v, Pinned(v, x, up), x);
  }

  lemma UnlockedKeeps(v: Cache, x: nat)
    requires Good(v) && x in v.held && x < NBUF && (x in v.dirty ==> v.pins[x] > 0)
    ensures Good(Unlocked(v, x)) && SameLatest(v, Unlocked(v, x))
  {
    assert BufOk(v, x);
    NearSame(v, Unlocked(v, x), x);
  }

  lemma LeftKeeps(v: Cache, x: nat)
    requires Good(v) && x < NBUF && v.leaving[x] > 0
    ensures v.bufs[x].refcnt > 0 && Good(Left(v, x)) && SameLatest(v, Left(v, x))
  {
    assert BufOk(v, x);
    NearSame(v, Left(v, x), x);
  }

  /** Recycling an unused buffer loses nothing: it was a copy of its block, or of none. */
  lemma RecycleKeeps(v: Cache, x: nat, k: Key)
    requires Good(v) && x < NBUF && v.bufs[x].refcnt == 0 && k.0 != 0 && k in v.disk
    requires forall y: nat {:trigger v.bufs[y]} :: y < NBUF ==> KeyOf(v.bufs[y]) != k
    ensures Good(Recycle(v, x, k)) && SameLatest(v, Recycle(v, x, k))
  {
    var v' := Recycle(v, x, k);
    assert BufOk(v, x);
    forall y: nat | y < NBUF
      ensures Alone(v', x, y) && Alone(v', y, x)
    {
      assert y != x ==> v'.bufs[y] == v.bufs[y];
    }
    NearGood(v, v', x);
    forall l | l in v.disk
      ensures Latest(v', l) == Latest(v, l)
    {
      if Cached(v, x, l) {
        LatestIn(v, x, l);
        forall y: nat | y < NBUF
          ensures !Cached(v', y, l)
        {
          assert Alone(v, x, y) && (y != x ==> v'.bufs[y] == v.bufs[y]);
        }
      } else {
        SameReads(v, v', l);
      }
    }
  }

  lemma FilledKeeps(v: Cache, x: nat)
    requires Good(v) && x in v.held && x < NBUF && !v.bufs[x].valid
    ensures KeyOf(v.bufs[x]) in v.disk && Good(Filled(v, x)) && SameLatest(v, Filled(v, x))
  {
    assert BufOk(v, x);
    var v', k := Filled(v, x), KeyOf(v.bufs[x]);
    forall y: nat | y < NBUF
      ensures Alone(v', x, y) && Alone(v', y, x)
    {
      assert Alone(v, x, y) && Alone(v, y, x);
    }
    NearGood(v, v', x);
    forall l | l in v.disk
      ensures Latest(v', l) == Latest(v, l)
    {
      if l == k {
        assert Cached(v', x, l);
        LatestIn(v', x, l);
        forall y: nat | y < NBUF
          ensures !Cached(v, y, l)
        {
          assert Alone(v, x, y);
        }
      } else {
        SameReads(v, v', l);
      }
    }
  }

  /** The holder of a buffer changes its block and no other. */
  lemma ChangedKeeps(v: Cache, x: nat, d: Data)
    requires Good(v) && x in v.held && x < NBUF && v.bufs[x].valid
    ensures var v' := Changed(v, x, d);
            && Good(v') && KeyOf(v.bufs[x]) in v.disk && v'.disk == v.disk
            && forall k {:trigger Latest(v', k)} :: k in v.disk ==>
               Latest(v', k) == if k == KeyOf(v.bufs[x]) then d else Latest(v, k)
  {
    assert BufOk(v, x);
    var v' := Changed(v, x, d);
    forall y: nat | y < NBUF
      ensures Alone(v', x, y) && Alone(v', y, x)
    {
      assert Alone(v, x, y) && Alone(v, y, x);
    }
    NearGood(v, v', x);
    forall k | k in v.disk
      ensures Latest(v', k) == if k == KeyOf(v.bufs[x]) then d else Latest(v, k)
    {
      if k == KeyOf(v.bufs[x]) {
        LatestIn(v', x, k);
      } else {
        SameReads(v, v', k);
      }
    }
  }

  lemma WrittenKeeps(v: Cache, x: nat)
    requires Good(v) && x in v.held && x < NBUF && v.bufs[x].valid
    ensures Good(Written(v, x)) && SameLatest(v, Written(v, x))
  {
    assert BufOk(v, x);
    var v', key := Written(v, x), KeyOf(v.bufs[x]);
    forall y: nat | y < NBUF
      ensures Alone(v', x, y) && Alone(v', y, x)
    {
      assert Alone(v, x, y) && Alone(v, y, x);
    }
    NearGood(v, v', x);
    forall k | k in v.disk
      ensures Latest(v', k) == Latest(v, k)
    {
      if k == key {
        LatestIn(v, x, k);
        LatestIn(v', x, k);
      } else {
        SameReads(v, v', k);
      }
    }
  }

  lemma ToFrontAt(v: Cache, i: nat, j: nat)
    requires Good(v) && i < |v.order| && j < |v.order|
    ensures v.order[i] < NBUF && |ToFront(v, i).order| == |v.order|
    ensures var w := ToFront(v, i).order;
            w[j] == if j == 0 then v.order[i] else if j <= i then v.order[j - 1] else v.order[j]
  {
    assert At(v.order, i, v.order[i]);
  }

  /** The buffer just released is the most recently released one. */
  lemma ToFrontKeeps(v: Cache, i: nat)
    requires Good(v) && i < |v.order|
    ensures v.order[i] < NBUF && Good(ToFront(v, i)) && SameLatest(v, ToFront(v, i))
    ensures v.order[i] !in Without(v.order, i)
  {
    assert At(v.order, i, v.order[i]);
    var x, v' := v.order[i], ToFront(v, i);
    assert x !in Without(v.order, i) by {
      forall j | 0 <= j < |Without(v.order, i)| && Without(v.order, i)[j] == x
        ensures false
      {
        assert At(v.order, if j < i then j else j + 1, x);
      }
    }
    FrontDistinct(v, i);
    forall y: nat | y < NBUF
      ensures BufOk(v', y)
    {
      assert BufOk(v, y);
      var j: nat :| j < |v.order| && v.order[j] == y;
      ToFrontAt(v, i, if j == i then 0 else if j < i then j + 1 else j);
    }
    forall y: nat, z: nat | y < NBUF && z < NBUF
      ensures Alone(v', y, z)
    {
      assert Alone(v, y, z);
    }
    forall j: nat, k: nat | j < |v'.order| && k < |v'.order|
      ensures Sorted(v', j, k)
    {
      FrontSorted(v, i, j, k);
    }
    forall k | k in v.disk
      ensures Latest(v', k) == Latest(v, k)
    {
      SameReads(v, v', k);
    }
  }

  lemma FrontDistinct(v: Cache, i: nat)
    requires Good(v) && i < |v.order| && v.order[i] < NBUF
    ensures Once(ToFront(v, i).order)
  {
    var w := ToFront(v, i).order;
    forall j: nat, x: nat | At(w, j, x)
      ensures At(v.order, if j == 0 then i else if j <= i then j - 1 else j, x)
    {
      ToFrontAt(v, i, j);
    }
  }

  lemma FrontSorted(v: Cache, i: nat, j: nat, k: nat)
    requires Good(v) && i < |v.order| && v.order[i] < NBUF && j < |v.order| && k < |v.order|
    ensures |ToFront(v, i).order| == |v.order| && Sorted(ToFront(v, i), j, k)
  {
    ToFrontAt(v, i, j);
    ToFrontAt(v, i, k);
    var from := (p: nat) => if p == 0 then i else if p <= i then p - 1 else p;
    if j < k {
      assert At(v.order, i, v.order[i]) && At(v.order, from(j), v.order[from(j)])
             && At(v.order, from(k), v.order[from(k)]);
      assert BufOk(v, v.order[from(k)]);
      if j > 0 { assert Sorted(v, from(j), from(k)); }
    }
  }

  /** The unused buffer nearest the end of the ring was released longest ago. */
  lemma LeastRecentlyReleased(v: Cache, i: nat, y: nat)
    requires Good(v) && i < |v.order| && y < NBUF && v.bufs[y].refcnt == 0
    requires forall j: nat {:trigger v.order[j]} :: i < j < |v.order| ==>
             v.order[j] < NBUF && v.bufs[v.order[j]].refcnt > 0
    ensures v.order[i] < NBUF && v.stamp[v.order[i]] <= v.stamp[y]
  {
    assert BufOk(v, y);
    assert At(v.order, i, v.order[i]);
    var j: nat :| j < |v.order| && v.order[j] == y;
    assert Sorted(v, j, i);
  }

  // ----- bio.c -----

  class BufferCache {
    const buf: array<Buf>
    const next: array<nat>
    const prev: array<nat>
    var disk: map<Key, Data>
    ghost var order: seq<nat>
    ghost var stamp: seq<nat>
    ghost var clock: nat
    ghost var held: set<nat>
    ghost var waiting: seq<nat>
    ghost var leaving: seq<nat>
    ghost var pins: seq<nat>
    ghost var dirty: set<nat>

    ghost function View(): Cache
      reads this, buf
    {
      Cache(buf[..], order, stamp, clock, held, waiting, leaving, pins, dirty, disk)
    }

    ghost predicate Valid()
      reads this, buf, next, prev
    {
      && buf.Length == NBUF && next.Length == prev.Length == NBUF + 1 && next != prev
      && Ring(next[..], prev[..], order) && Sized(View()) && Good(View())
    }

    /** The writes that link buffer `b` in right after the head. */
    method PushFront(b: nat, ghost ord: seq<nat>)
      requires next.Length == prev.Length == NBUF + 1 && next != prev && Ring(next[..], prev[..], ord) && b < NBUF
               && b !in ord
      modifies next, prev
      ensures Ring(next[..], prev[..], [b] + ord)
    {
      FrontRing(next[..], prev[..], ord, b);
      ghost var nx, pv := next[..], prev[..];
      hide Ring;
      next[b] := next[HEAD];
      prev[b] := HEAD;
      prev[next[HEAD]] := b;
      next[HEAD] := b;
      assert next[..] == FrontNext(nx, b) && prev[..] == FrontPrev(nx, pv, b);
    }

    /** binit: every buffer stands for block 0 of device 0 and is unused. */
    constructor (disk: map<Key, Data>)
      ensures Valid() && this.disk == disk && fresh(buf) && fresh(next) && fresh(prev)
      ensures order == Downto(NBUF) && held == dirty == {}
      ensures buf[..] == seq(NBUF, _ => UNUSED)
    {
      hide Good, Once;
      buf := new Buf[NBUF](_ => UNUSED);
      next := new nat[NBUF + 1](_ => HEAD);
      prev := new nat[NBUF + 1](_ => HEAD);
      this.disk := disk;
      order, stamp, clock := [], Numbers(NBUF), NBUF;
      held, waiting, leaving, pins, dirty := {}, Zeros(), Zeros(), Zeros(), {};
      new;
      EmptyRing(next[..], prev[..]);
      hide Ring, Downto, Numbers, Zeros;
      DownFrom(0);
      var b := 0;
      while b < NBUF
        invariant b <= NBUF && buf.Length == NBUF && next.Length == prev.Length == NBUF + 1 && next != prev
        invariant fresh(buf) && fresh(next) && fresh(prev) && buf[..] == seq(NBUF, _ => UNUSED)
        invariant order == Downto(b) && Ring(next[..], prev[..], order)
        invariant held == dirty == {} && waiting == leaving == pins == Zeros() && stamp == Numbers(NBUF)
                  && clock == NBUF && this.disk == disk
      {
        DownFrom(b);
        PushFront(b, order);
        order := [b] + order;
        b := b + 1;
      }
      FreshCache(View());
    }

    /** The first loop of bget: the buffer for a block, or HEAD. */
    method Lookup(k: Key) returns (b: nat)
      requires Valid()
      ensures b <= NBUF && (b < NBUF ==> KeyOf(buf[b]) == k)
      ensures b == HEAD ==> forall x: nat {:trigger buf[x]} :: x < NBUF ==> KeyOf(buf[x]) != k
    {
      hide Good, Ring;
      ghost var i := 0;
      b := First();
      while b != HEAD
        invariant i <= |order| && b == Path(order)[i + 1] <= NBUF && (b == HEAD <==> i == |order|)
        invariant forall j: nat {:trigger order[j]} :: j < i ==> order[j] < NBUF && KeyOf(buf[order[j]]) != k
        decreases |order| - i
      {
        Here(i);
        if buf[b].dev == k.0 && buf[b].blockno == k.1 {
          return;
        }
        b := next[b];
        i := i + 1;
      }
      Everywhere();
    }

    /** The second loop of bget: the unused buffer nearest the end of the ring, or HEAD. */
    method FindUnused() returns (b: nat, ghost at: nat)
      requires Valid()
      ensures b <= NBUF
      ensures b == HEAD ==> forall x: nat {:trigger buf[x]} :: x < NBUF ==> buf[x].refcnt > 0
      ensures b < NBUF ==> at < |order| && order[at] == b && buf[b].refcnt == 0
      ensures b < NBUF ==> forall j: nat {:trigger order[j]} :: at < j < |order| ==>
              order[j] < NBUF && buf[order[j]].refcnt > 0
    {
      hide Good, Ring;
      ghost var i := |order|;
      at := 0;
      b := Final();
      while b != HEAD
        invariant 0 <= i <= |order| && b == Path(order)[i] <= NBUF && (b == HEAD <==> i == 0)
        invariant forall j: nat {:trigger order[j]} :: i <= j < |order| ==> order[j] < NBUF && buf[order[j]].refcnt > 0
        decreases i
      {
        Here(i - 1);
        if buf[b].refcnt == 0 {
          at := i - 1;
          return;
        }
        b := prev[b];
        i := i - 1;
      }
      Everywhere();
    }

    method First() returns (b: nat)
      requires Valid()
      ensures b == next[HEAD] == Path(order)[1] <= NBUF && (b == HEAD <==> |order| == 0)
    {
      assert Link(next[..], prev[..], Path(order), 0);
      assert |order| > 0 ==> At(order, 0, order[0]);
      b := next[HEAD];
    }

    method Final() returns (b: nat)
      requires Valid()
      ensures b == prev[HEAD] == Path(order)[|order|] <= NBUF && (b == HEAD <==> |order| == 0)
    {
      assert Link(next[..], prev[..], Path(order), |order|);
      assert |order| > 0 ==> At(order, |order| - 1, order[|order| - 1]);
      b := prev[HEAD];
    }

    lemma Here(i: nat)
      requires Valid() && i < |order|
      ensures order[i] < NBUF && next[order[i]] == Path(order)[i + 2] <= NBUF
              && prev[order[i]] == Path(order)[i] <= NBUF
      ensures next[order[i]] == HEAD <==> i + 1 == |order|
      ensures prev[order[i]] == HEAD <==> i == 0
    {
      Around(next[..], prev[..], order, i);
      assert At(order, i, order[i]);
      assert i + 1 < |order| ==> At(order, i + 1, order[i + 1]);
      assert i > 0 ==> At(order, i - 1, order[i - 1]);
    }

    lemma Everywhere()
      requires Valid()
      ensures forall x: nat {:trigger buf[x]} :: x < NBUF ==> x in order
    {
      forall x: nat | x < NBUF
        ensures x in order
      {
        assert BufOk(View(), x);
      }
    }

    /** bget up to where it gives up the lock of the cache; HEAD stands for its panic, which happens only when
        the block is not cached and every buffer is in use. */
    method Bget(dev: nat, blockno: nat) returns (b: nat)
      requires Valid() && dev != 0 && (dev, blockno) in disk
      modifies this`waiting, buf
      ensures Valid() && SameLatest(old(View()), View())
      ensures b == HEAD <==> forall x: nat {:trigger old(buf[x])} :: x < NBUF ==>
              KeyOf(old(buf[x])) != (dev, blockno) && old(buf[x]).refcnt > 0
      ensures b == HEAD ==> View() == old(View())
      ensures b != HEAD ==> b < NBUF && KeyOf(buf[b]) == (dev, blockno)
      ensures b != HEAD && KeyOf(old(buf[b])) == (dev, blockno) ==> View() == Hit(old(View()), b)
      ensures b != HEAD && KeyOf(old(buf[b])) != (dev, blockno) ==>
                && View() == Recycle(old(View()), b, (dev, blockno)) && old(buf[b]).refcnt == 0
                && forall y: nat {:trigger stamp[y]} :: y < NBUF && old(buf[y]).refcnt == 0 ==> stamp[b] <= stamp[y]
    {
      hide Good, Ring, SameLatest, BufOk;
      ghost var v := View();
      SameSelf(v);
      b := Lookup((dev, blockno));
      if b != HEAD {
        HitKeeps(v, b);
        buf[b] := buf[b].(refcnt := buf[b].refcnt + 1);
        waiting := waiting[b := waiting[b] + 1];
        assert View() == Hit(v, b);
        return;
      }
      ghost var at;
      b, at := FindUnused();
      if b != HEAD {
        RecycleKeeps(v, b, (dev, blockno));
        forall y: nat | y < NBUF && buf[y].refcnt == 0
          ensures stamp[b] <= stamp[y]
        {
          LeastRecentlyReleased(v, at, y);
        }
        buf[b] := buf[b].(dev := dev, blockno := blockno, valid := false, refcnt := 1);
        waiting := waiting[b := waiting[b] + 1];
        assert View() == Recycle(v, b, (dev, blockno));
      }
    }

    /** The sleep lock of a buffer is acquired when it is free. */
    method AcquireSleep(b: nat)
      requires Valid() && b < NBUF && waiting[b] > 0 && b !in held
      modifies this`waiting, this`held
      ensures Valid() && View() == Locked(old(View()), b) && SameLatest(old(View()), View())
    {
      hide Good, Ring, SameLatest;
      LockedKeeps(View(), b);
      waiting, held := waiting[b := waiting[b] - 1], held + {b};
    }

    /** The rest of bread: the buffer now has the latest contents of its block. */
    method Fill(b: nat)
      requires Valid() && b < NBUF && b in held
      modifies buf
      ensures Valid() && SameLatest(old(View()), View()) && KeyOf(buf[b]) == KeyOf(old(buf[b])) && KeyOf(buf[b]) in disk
      ensures buf[b].valid && buf[b].refcnt == old(buf[b]).refcnt && buf[b].data == Latest(View(), KeyOf(buf[b]))
      ensures forall x :: 0 <= x < NBUF && x != b ==> buf[x] == old(buf[x])
    {
      hide Ring, SameLatest;
      ghost var v := View();
      assert BufOk(v, b);
      SameSelf(v);
      if !buf[b].valid {
        FilledKeeps(v, b);
        buf[b] := buf[b].(data := disk[KeyOf(buf[b])], valid := true);
        assert View() == Filled(v, b);
      }
      LatestIn(View(), b, KeyOf(buf[b]));
    }

    /** The holder of a buffer changes its data. */
    method Change(b: nat, d: Data)
      requires Valid() && b < NBUF && b in held && buf[b].valid
      modifies buf, this`dirty
      ensures Valid() && KeyOf(old(buf[b])) in disk
      ensures forall k {:trigger Latest(View(), k)} :: k in disk ==>
              Latest(View(), k) == if k == KeyOf(old(buf[b])) then d else Latest(old(View()), k)
    {
      hide Good, Ring;
      ghost var v := View();
      ChangedKeeps(v, b, d);
      buf[b] := buf[b].(data := d);
      dirty := dirty + {b};
      assert View() == Changed(v, b, d);
    }

    method Bwrite(b: nat)
      requires Valid() && b < NBUF && b in held && buf[b].valid
      modifies this`disk, this`dirty
      ensures Valid() && SameLatest(old(View()), View())
      ensures disk == old(disk)[KeyOf(buf[b]) := buf[b].data] && dirty == old(dirty) - {b}
    {
      hide Good, Ring, SameLatest;
      WrittenKeeps(View(), b);
      disk := disk[KeyOf(buf[b]) := buf[b].data];
      dirty := dirty - {b};
    }

    /** bpin and bunpin. */
    method Bpin(b: nat)
      requires Valid() && b < NBUF && buf[b].refcnt > 0
      modifies buf, this`pins
      ensures Valid() && View() == Pinned(old(View()), b, true) && SameLatest(old(View()), View())
    {
      hide Good, Ring, SameLatest;
      ghost var v := View();
      PinnedKeeps(v, b, true);
      buf[b] := buf[b].(refcnt := buf[b].refcnt + 1);
      pins := pins[b := pins[b] + 1];
      assert View() == Pinned(v, b, true);
    }

    method Bunpin(b: nat)
      requires Valid() && b < NBUF && pins[b] > 0 && (b in dirty ==> b in held || pins[b] > 1)
      modifies buf, this`pins
      ensures Valid() && old(buf[b]).refcnt > 0 && View() == Pinned(old(View()), b, false)
              && SameLatest(old(View()), View())
    {
      hide Good, Ring, SameLatest;
      ghost var v := View();
      PinnedKeeps(v, b, false);
      buf[b] := buf[b].(refcnt := buf[b].refcnt - 1);
      pins := pins[b := pins[b] - 1];
      assert View() == Pinned(v, b, false);
    }

    /** The first half of brelse, of a buffer whose changes are written or pinned: the lock is
        released, and another process may take it before the second half. */
    method ReleaseSleep(b: nat)
      requires Valid() && b < NBUF && b in held && (b in dirty ==> pins[b] > 0)
      modifies this`held, this`leaving
      ensures Valid() && View() == Unlocked(old(View()), b) && SameLatest(old(View()), View())
    {
      hide Good, Ring, SameLatest;
      UnlockedKeeps(View(), b);
      held, leaving := held - {b}, leaving[b := leaving[b] + 1];
    }

    /** The second half of brelse: a reference is given up.  When no one else refers to the
        buffer any more it becomes the most recently released one. */
    method Leave(b: nat)
      requires Valid() && b < NBUF && leaving[b] > 0
      modifies this`leaving, this`order, this`stamp, this`clock, buf, next, prev
      ensures Valid() && SameLatest(old(View()), View()) && leaving == old(leaving)[b := old(leaving)[b] - 1]
      ensures old(buf[b]).refcnt > 0 && buf[..] == old(buf[..])[b := old(buf[b]).(refcnt := old(buf[b]).refcnt - 1)]
      ensures buf[b].refcnt > 0 ==> order == old(order) && stamp == old(stamp)
      ensures buf[b].refcnt == 0 ==>
                && order != [] && order[0] == b && stamp[b] == clock == old(clock) + 1
                && forall y: nat {:trigger stamp[y]} :: y < NBUF && y != b ==> stamp[y] == old(stamp)[y]
    {
      hide Good, Ring, SameLatest;
      ghost var v := View();
      LeftKeeps(v, b);
      buf[b] := buf[b].(refcnt := buf[b].refcnt - 1);
      leaving := leaving[b := leaving[b] - 1];
      assert View() == Left(v, b);
      if buf[b].refcnt == 0 {
        ghost var v1 := View();
        ToFirst(b);
        SameTrans(v, v1, View());
      }
    }

    /** The moves that take a buffer out of the ring and link it in first. */
    method ToFirst(b: nat)
      requires Valid() && b < NBUF
      modifies this`order, this`stamp, this`clock, next, prev
      ensures Valid() && SameLatest(old(View()), View())
      ensures order != [] && order[0] == b && clock == old(clock) + 1 && stamp == old(stamp)[b := clock]
    {
      hide Good, Ring, SameLatest;
      Everywhere();
      ghost var v1 := View();
      assert buf[b] == buf[b] && b in order;
      ghost var i: nat :| i < |order| && order[i] == b;
      ToFrontKeeps(v1, i);
      CutRing(next[..], prev[..], order, i);
      ghost var nx, pv := next[..], prev[..];
      prev[next[b]] := prev[b];
      next[prev[b]] := next[b];
      assert prev[..] == CutPrev(nx, pv, b);
      assert next[..] == CutNext(nx, pv, b) by { NoSelfLoop(nx, pv, order, i); }
      PushFront(b, Without(order, i));
      order, stamp, clock := [b] + Without(order, i), stamp[b := clock + 1], clock + 1;
      assert View() == ToFront(v1, i);
    }

    /** brelse as a whole, when nothing happens in between. */
    method Brelse(b: nat)
      requires Valid() && b < NBUF && b in held && (b in dirty ==> pins[b] > 0)
      modifies this`held, this`leaving, this`order, this`stamp, this`clock, buf, next, prev
      ensures Valid() && SameLatest(old(View()), View()) && held == old(held) - {b} && leaving == old(leaving)
      ensures old(buf[b]).refcnt > 0 && buf[..] == old(buf[..])[b := old(buf[b]).(refcnt := old(buf[b]).refcnt - 1)]
      ensures buf[b].refcnt == 0 ==> order != [] && order[0] == b && stamp[b] == clock == old(clock) + 1
    {
      hide Good, Ring, SameLatest;
      ghost var v := View();
      ReleaseSleep(b);
      ghost var v1 := View();
      Leave(b);
      SameTrans(v, v1, View());
    }
  }

  const UNUSED := Buf(false, 0, 0, 0, [])

  lemma SameSelf(v: Cache)
    requires Good(v)
    ensures SameLatest(v, v)
  {
  }

  lemma SameTrans(a: Cache, b: Cache, c: Cache)
    requires Good(a) && Good(b) && Good(c) && SameLatest(a, b) && SameLatest(b, c)
    ensures SameLatest(a, c)
  {
    forall k | k in a.disk
      ensures Latest(c, k) == Latest(a, k)
    {
      assert Latest(b, k) == Latest(a, k);
    }
  }

  /** A buffer is not its own neighbour. */
  lemma NoSelfLoop(nx: seq<nat>, pv: seq<nat>, order: seq<nat>, i: nat)
    requires Ring(nx, pv, order) && i < |order|
    ensures order[i] < |nx| && order[i] < |pv| && nx[order[i]] != order[i] && pv[order[i]] != order[i]
  {
    Around(nx, pv, order, i);
    PathDistinct(order, i, i + 1);
    if i + 1 < |order| { PathDistinct(order, i + 1, i + 2); } else { PathDistinct(order, 0, i + 1); }
  }

  function Zeros(): seq<nat> { seq(NBUF, _ => 0) }

  function Numbers(n: nat): seq<nat> { seq(n, i => i) }

  function Downto(n: nat): seq<nat> { seq(n, i requires 0 <= i < n => n - 1 - i) }

  lemma DownFrom(n: nat)
    ensures Downto(n + 1) == [n] + Downto(n) && n !in Downto(n) && Downto(0) == []
  {
  }

  lemma EmptyRing(nx: seq<nat>, pv: seq<nat>)
    requires |nx| == |pv| == NBUF + 1 && nx[HEAD] == pv[HEAD] == HEAD
    ensures Ring(nx, pv, [])
  {
  }

  lemma FreshCache(v: Cache)
    requires Sized(v) && v.order == Downto(NBUF) && v.stamp == Numbers(NBUF) && v.clock == NBUF
    requires v.held == v.dirty == {} && v.waiting == v.leaving == v.pins == Zeros() && v.bufs == seq(NBUF, _ => UNUSED)
    ensures Good(v)
  {
    forall x: nat | x < NBUF
      ensures BufOk(v, x)
    {
      assert v.order[NBUF - 1 - x] == x;
    }
  }
}
