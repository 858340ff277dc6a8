/** virtio_disk.c: descriptors, the two rings, and the requests in flight. */
module Virtio {
  import opened Common

  const NUM: nat := 8
  const U16: nat := 0x1_0000

  // ----- what the driver writes for the device -----

  datatype Addr = None | Request(op: nat) | Data(buf: nat) | Status(info: nat)

  /** A descriptor; of its flags, `more` is VRING_DESC_F_NEXT and `write` VRING_DESC_F_WRITE. */
  datatype Desc = Desc(addr: Addr, more: bool, write: bool, next: nat)

  datatype Req = Req(write: bool, sector: nat)

  /** info[i]: the buffer, if any, and the status byte. */
  datatype Info = Info(buf: int, status: nat)

  const NO_DESC := Desc(None, false, false, 0)
  const NO_BUF: int := -1

  /** What a request asks for. */
  datatype Task = Task(buf: nat, write: bool, sector: nat)

  /** How far a request has come: published, taken by the device, reported in the used ring,
      noticed by the interrupt handler. */
  datatype Stage = Queued(k: nat) | Working | Reported(k: nat) | Noticed

  datatype Chain = Chain(mid: nat, last: nat, task: Task, stage: Stage)

  /** The driver's memory, and the history it has gone through: `sent` and `done` list the
      heads published and reported so far, `fetched` and `seen` count how many of them the
      other side has taken. */
  datatype Disk = Disk(desc: seq<Desc>, free: seq<bool>, ops: seq<Req>, info: seq<Info>,
                       avail: seq<nat>, availIdx: nat, used: seq<nat>, devIdx: nat, usedIdx: nat, busy: set<nat>,
                       chains: map<nat, Chain>, owner: map<nat, nat>, holder: map<nat, nat>,
                       sent: seq<nat>, fetched: nat, done: seq<nat>, seen: nat)

  predicate Sized(d: Disk) {
    && |d.desc| == |d.free| == |d.ops| == |d.info| == |d.avail| == |d.used| == NUM
    && d.fetched <= |d.sent| && d.seen <= |d.done|
  }

  /** Descriptor `i` belongs to the chain that starts at owner[i]. */
  predicate Part(c: Chain, h: nat, i: nat) { i == h || i == c.mid || i == c.last }

  predicate DescOk(d: Disk, i: nat)
    requires Sized(d) && i < NUM
  {
    && (d.free[i] <==> i !in d.owner)
    && (i in d.owner ==> d.owner[i] in d.chains && Part(d.chains[d.owner[i]], d.owner[i], i))
  }

  /** The chain at `h` has three different descriptors, which say what its task is. */
  predicate Formatted(d: Disk, h: nat)
    requires Sized(d) && h in d.chains
  {
    var c := d.chains[h];
    && h < NUM && c.mid < NUM && c.last < NUM && h != c.mid && h != c.last && c.mid != c.last
    && h in d.owner && d.owner[h] == h && c.mid in d.owner && d.owner[c.mid] == h && c.last in d.owner
       && d.owner[c.last] == h
    && d.desc[h] == Desc(Request(h), true, false, c.mid) && d.ops[h] == Req(c.task.write, c.task.sector)
    && d.desc[c.mid] == Desc(Data(c.task.buf), true, !c.task.write, c.last)
    && d.desc[c.last] == Desc(Status(h), false, true, 0)
  }

  predicate ChainOk(d: Disk, h: nat)
    requires Sized(d) && h in d.chains
  {
    var c := d.chains[h];
    && Formatted(d, h)
    && d.info[h].buf == c.task.buf && c.task.buf in d.holder && d.holder[c.task.buf] == h
    && (c.task.buf in d.busy <==> !c.stage.Noticed?)
    && match c.stage
       case Queued(k) => d.fetched <= k < |d.sent| && d.sent[k] == h
       case Working => true
       case Reported(k) => d.seen <= k < |d.done| && d.done[k] == h && d.info[h].status == 0
       case Noticed => true
  }

  /** The avail ring still holds what the device has not taken, the used ring what the driver
      has not seen. */
  predicate SentOk(d: Disk, k: nat)
    requires Sized(d) && k < |d.sent|
  {
    d.fetched <= k ==> d.sent[k] in d.chains && d.chains[d.sent[k]].stage == Queued(k) && d.avail[k % NUM] == d.sent[k]
  }

  predicate DoneOk(d: Disk, k: nat)
    requires Sized(d) && k < |d.done|
  {
    d.seen <= k ==> d.done[k] in d.chains && d.chains[d.done[k]].stage == Reported(k) && d.used[k % NUM] == d.done[k]
  }

  predicate HolderOk(d: Disk, b: nat) {
    b in d.holder ==> d.holder[b] in d.chains && d.chains[d.holder[b]].task.buf == b
  }

  ghost predicate Good(d: Disk) {
    && Sized(d) && |d.owner.Keys| == 3 * |d.chains.Keys|
    && (forall i: nat {:trigger i in d.owner} :: i in d.owner ==> i < NUM)
    && (forall i: nat {:trigger DescOk(d, i)} :: i < NUM ==> DescOk(d, i))
    && (forall h: nat {:trigger ChainOk(d, h)} :: h in d.chains ==> ChainOk(d, h))
    && (forall k: nat {:trigger SentOk(d, k)} :: k < |d.sent| ==> SentOk(d, k))
    && (forall k: nat {:trigger DoneOk(d, k)} :: k < |d.done| ==> DoneOk(d, k))
    && (forall b: nat {:trigger HolderOk(d, b)} :: HolderOk(d, b))
    && d.availIdx == |d.sent| % U16 && d.devIdx == |d.done| % U16 && d.usedIdx == d.seen % U16
  }

  /** At most two requests are in flight. */
  lemma AtMostTwo(d: Disk)
    requires Good(d)
    ensures |d.chains.Keys| <= 2
  {
    AllOfThem();
    SubsetSize(d.owner.Keys, ALL);
  }

  /** So neither ring is ever overrun, and a difference of 16-bit indices tells how far apart
      the two sides are. */
  lemma RingsFit(d: Disk)
    requires Good(d)
    ensures |d.sent| - d.fetched <= 2 && |d.done| - d.seen <= 2
    ensures d.usedIdx != d.devIdx <==> d.seen < |d.done|
  {
    AtMostTwo(d);
    var n, m := |d.sent|, |d.done|;
    if n - d.fetched >= 3 {
      assert SentOk(d, n - 1) && SentOk(d, n - 2) && SentOk(d, n - 3);
      SubsetSize({d.sent[n - 1], d.sent[n - 2], d.sent[n - 3]}, d.chains.Keys);
    }
    if m - d.seen >= 3 {
      assert DoneOk(d, m - 1) && DoneOk(d, m - 2) && DoneOk(d, m - 3);
      SubsetSize({d.done[m - 1], d.done[m - 2], d.done[m - 3]}, d.chains.Keys);
    }
  }

  // ----- steps -----

  /** The driver formats a chain and publishes it. */
  function Publish(d: Disk, h: nat, m: nat, t: nat, task: Task): Disk
    requires Sized(d) && h < NUM && m < NUM && t < NUM
  {
    d.(free := d.free[h := false][m := false][t := false],
       desc := d.desc[h := Desc(Request(h), true, false, m)][m := Desc(Data(task.buf), true, !task.write,
         t)][t := Desc(Status(h), false, true, 0)],
       ops := d.ops[h := Req(task.write, task.sector)], info := d.info[h := Info(task.buf, 0xff)],
       avail := d.avail[d.availIdx % NUM := h], availIdx := (d.availIdx + 1) % U16, busy := d.busy + {task.buf},
       chains := d.chains[h := Chain(m, t, task, Queued(|d.sent|))], owner := d.owner[h := h][m := h][t := h],
       holder := d.holder[task.buf := h], sent := d.sent + [h])
  }

  function SetStage(d: Disk, h: nat, st: Stage): Disk
    requires h in d.chains
  {
    d.(chains := d.chains[h := d.chains[h].(stage := st)])
  }

  /** The device takes the next published request. */
  function Fetch(d: Disk, h: nat): Disk
    requires h in d.chains
  {
    SetStage(d, h, Working).(fetched := d.fetched + 1)
  }

  /** The device has carried out a request: status 0 and an entry in the used ring. */
  function Report(d: Disk, h: nat): Disk
    requires Sized(d) && h in d.chains && h < NUM
  {
    SetStage(d, h, Reported(|d.done|)).(info := d.info[h := d.info[h].(status := 0)],
      used := d.used[d.devIdx % NUM := h], devIdx := (d.devIdx + 1) % U16, done := d.done + [h])
  }

  /** The interrupt handler sees the next entry of the used ring. */
  function Notice(d: Disk, h: nat): Disk
    requires h in d.chains
  {
    SetStage(d, h, Noticed).(busy := d.busy - {d.chains[h].task.buf}, usedIdx := (d.usedIdx + 1) % U16,
      seen := d.seen + 1)
  }

  /** The driver gives the descriptors of a finished request back. */
  function Retire(d: Disk, h: nat): Disk
    requires Sized(d) && h in d.chains && h < NUM && d.chains[h].mid < NUM && d.chains[h].last < NUM
  {
    var c := d.chains[h];
    d.(free := d.free[h := true][c.mid := true][c.last := true],
       desc := d.desc[h := NO_DESC][c.mid := NO_DESC][c.last := NO_DESC],
       info := d.info[h := d.info[h].(buf := NO_BUF)],
       chains := d.chains - {h}, owner := d.owner - {h, c.mid, c.last}, holder := d.holder - {c.task.buf})
  }

  /** Different chains share no descriptor and no buffer. */
  lemma ChainsApart(d: Disk, h: nat, g: nat)
    requires Good(d) && h in d.chains && g in d.chains && h != g
    ensures h < NUM && g < NUM
    ensures var c, e := d.chains[h], d.chains[g];
            && c.task.buf != e.task.buf
            && {h, c.mid, c.last} !! {g, e.mid, e.last}
  {
    assert ChainOk(d, h) && ChainOk(d, g);
  }

  lemma WrapMod(n: nat)
    ensures n % U16 % NUM == n % NUM && (n + 1) % U16 == (n % U16 + 1) % U16
  {
    assert n == n / U16 * U16 + n % U16;
  }

  // Publishing

  lemma PublishChain(d: Disk, h: nat, m: nat, t: nat, task: Task, g: nat)
    requires Good(d) && h < NUM && m < NUM && t < NUM && h != m && h != t && m != t
    requires d.free[h] && d.free[m] && d.free[t] && task.buf !in d.holder && g in d.chains
    ensures g != h && ChainOk(Publish(d, h, m, t, task), g)
  {
    hide SentOk, DoneOk;
    assert DescOk(d, h) && DescOk(d, m) && DescOk(d, t) && ChainOk(d, g);
    var c := d.chains[g];
    assert g !in {h, m, t} && c.mid !in {h, m, t} && c.last !in {h, m, t};
  }

  lemma PublishNew(d: Disk, h: nat, m: nat, t: nat, task: Task)
    requires Good(d) && h < NUM && m < NUM && t < NUM && h != m && h != t && m != t
    ensures ChainOk(Publish(d, h, m, t, task), h)
  {
    hide SentOk, DoneOk, DescOk, HolderOk;
  }

  lemma PublishDesc(d: Disk, h: nat, m: nat, t: nat, task: Task, i: nat)
    requires Good(d) && h < NUM && m < NUM && t < NUM && h != m && h != t && m != t
    requires d.free[h] && d.free[m] && d.free[t] && task.buf !in d.holder && h !in d.chains
    requires i < NUM
    ensures DescOk(Publish(d, h, m, t, task), i)
  {
    hide SentOk, DoneOk, ChainOk, Formatted, HolderOk;
    assert DescOk(d, h) && DescOk(d, m) && DescOk(d, t) && DescOk(d, i);
  }

  lemma AddThree(o: map<nat, nat>, h: nat, m: nat, t: nat)
    requires h !in o && m !in o && t !in o && h != m && h != t && m != t
    ensures |o[h := h][m := h][t := h].Keys| == |o.Keys| + 3
    ensures forall i :: i in o[h := h][m := h][t := h] <==> i in o || i == h || i == m || i == t
  {
    AddOne(o, h, h);
    AddOne(o[h := h], m, h);
    AddOne(o[h := h][m := h], t, h);
  }

  lemma AddOne<T>(o: map<nat, T>, h: nat, v: T)
    requires h !in o
    ensures |o[h := v].Keys| == |o.Keys| + 1
  {
    assert o[h := v].Keys == o.Keys + {h};
  }

  lemma PublishCount(d: Disk, h: nat, m: nat, t: nat, task: Task)
    requires Good(d) && h < NUM && m < NUM && t < NUM && h != m && h != t && m != t
    requires d.free[h] && d.free[m] && d.free[t] && task.buf !in d.holder && h !in d.chains
    ensures var d' := Publish(d, h, m, t, task); |d'.owner.Keys| == 3 * |d'.chains.Keys|
    ensures forall i: nat {:trigger i in Publish(d, h, m, t, task).owner} :: i in Publish(d, h, m, t, task).owner ==>
            i < NUM
  {
    hide SentOk, DoneOk, ChainOk, Formatted, HolderOk;
    var d' := Publish(d, h, m, t, task);
    assert DescOk(d, h) && DescOk(d, m) && DescOk(d, t);
    hide DescOk;
    AddThree(d.owner, h, m, t);
    AddOne(d.chains, h, d'.chains[h]);
  }

  lemma PublishHolder(d: Disk, h: nat, m: nat, t: nat, task: Task, b: nat)
    requires Good(d) && h < NUM && m < NUM && t < NUM && h != m && h != t && m != t
    requires d.free[h] && d.free[m] && d.free[t] && task.buf !in d.holder && h !in d.chains
    ensures HolderOk(Publish(d, h, m, t, task), b)
  {
    hide SentOk, DoneOk, ChainOk, Formatted, DescOk;
    assert HolderOk(d, b);
  }

  lemma PublishRings(d: Disk, h: nat, m: nat, t: nat, task: Task)
    requires Good(d) && h < NUM && m < NUM && t < NUM && h !in d.chains
    ensures var d' := Publish(d, h, m, t, task);
            && (forall k: nat {:trigger SentOk(d', k)} :: k < |d'.sent| ==> SentOk(d', k))
            && (forall k: nat {:trigger DoneOk(d', k)} :: k < |d'.done| ==> DoneOk(d', k))
            && d'.availIdx == |d'.sent| % U16
  {
    hide ChainOk, Formatted, DescOk, HolderOk;
    RingsFit(d);
    WrapMod(|d.sent|);
    var d' := Publish(d, h, m, t, task);
    forall k: nat | k < |d'.sent|
      ensures SentOk(d', k)
    {
      if k < |d.sent| {
        assert SentOk(d, k);
        if d.fetched <= k { RingApart(k, |d.sent|, NUM); }
      }
    }
    forall k: nat | k < |d'.done|
      ensures DoneOk(d', k)
    {
      assert DoneOk(d, k);
    }
  }

  lemma PublishKeeps(d: Disk, h: nat, m: nat, t: nat, task: Task)
    requires Good(d) && h < NUM && m < NUM && t < NUM && h != m && h != t && m != t
    requires d.free[h] && d.free[m] && d.free[t] && task.buf !in d.holder
    ensures h !in d.chains && Good(Publish(d, h, m, t, task))
  {
    hide ChainOk, DescOk, SentOk, DoneOk, HolderOk;
    if h in d.chains { PublishChain(d, h, m, t, task, h); }
    var d' := Publish(d, h, m, t, task);
    PublishNew(d, h, m, t, task);
    PublishCount(d, h, m, t, task);
    PublishRings(d, h, m, t, task);
    forall i: nat | i < NUM
      ensures DescOk(d', i)
    {
      PublishDesc(d, h, m, t, task, i);
    }
    forall b: nat
      ensures HolderOk(d', b)
    {
      PublishHolder(d, h, m, t, task, b);
    }
    forall g | g in d'.chains
      ensures ChainOk(d', g)
    {
      if g != h { PublishChain(d, h, m, t, task, g); }
    }
  }

  // Fetching, reporting and noticing: one request comes a stage further

  ghost predicate Moved(d: Disk, d': Disk, h: nat) {
    && Sized(d) && Sized(d') && h in d.chains && h in d'.chains && h < NUM
       && d'.chains == d.chains[h := d.chains[h].(stage := d'.chains[h].stage)]
    && d'.desc == d.desc && d'.free == d.free && d'.ops == d.ops && d'.owner == d.owner && d'.holder == d.holder
    && (forall g: nat {:trigger d'.info[g]} :: g < NUM && g != h ==> d'.info[g] == d.info[g])
       && d'.info[h].buf == d.info[h].buf
    && d'.sent == d.sent && (d'.done == d.done || d'.done == d.done + [h])
    && (d'.fetched == d.fetched || (d.fetched < |d.sent| && d.sent[d.fetched] == h && d'.fetched == d.fetched + 1))
    && (d'.seen == d.seen || (d.seen < |d.done| && d.done[d.seen] == h && d'.seen == d.seen + 1))
    && (d'.busy == d.busy || d'.busy == d.busy - {d.chains[h].task.buf})
  }

  lemma MovedChain(d: Disk, d': Disk, h: nat, g: nat)
    requires Good(d) && Moved(d, d', h) && g in d.chains && g != h
    ensures ChainOk(d', g)
  {
    hide SentOk, DoneOk, DescOk, HolderOk;
    assert ChainOk(d, g) && ChainOk(d, h);
    assert d'.chains[g] == d.chains[g];
  }

  lemma MovedGood(d: Disk, d': Disk, h: nat)
    requires Good(d) && Moved(d, d', h) && ChainOk(d', h)
    requires forall k: nat {:trigger SentOk(d', k)} :: k < |d'.sent| ==> SentOk(d', k)
    requires forall k: nat {:trigger DoneOk(d', k)} :: k < |d'.done| ==> DoneOk(d', k)
    requires d'.availIdx == |d'.sent| % U16 && d'.devIdx == |d'.done| % U16 && d'.usedIdx == d'.seen % U16
    ensures Good(d')
  {
    hide ChainOk, SentOk, DoneOk;
    assert d'.chains.Keys == d.chains.Keys;
    forall g | g in d'.chains
      ensures ChainOk(d', g)
    {
      if g != h { MovedChain(d, d', h, g); }
    }
    forall i: nat | i < NUM
      ensures DescOk(d', i)
    {
      assert DescOk(d, i);
    }
    forall b: nat
      ensures HolderOk(d', b)
    {
      assert HolderOk(d, b);
    }
  }

  lemma FetchRings(d: Disk)
    requires Good(d) && d.fetched < |d.sent|
    ensures var h := d.sent[d.fetched];
            && h in d.chains && d.chains[h].stage == Queued(d.fetched) && d.avail[d.fetched % NUM] == h
            && var d' := Fetch(d, h);
               (forall k: nat {:trigger SentOk(d', k)} :: k < |d'.sent| ==> SentOk(d', k))
               && (forall k: nat {:trigger DoneOk(d', k)} :: k < |d'.done| ==> DoneOk(d', k))
  {
    hide ChainOk, Formatted, DescOk, HolderOk;
    var h := d.sent[d.fetched];
    assert SentOk(d, d.fetched);
    var d' := Fetch(d, h);
    forall k: nat | k < |d'.sent|
      ensures SentOk(d', k)
    {
      assert SentOk(d, k);
    }
    forall k: nat | k < |d'.done|
      ensures DoneOk(d', k)
    {
      assert DoneOk(d, k);
    }
  }

  lemma FetchKeeps(d: Disk)
    requires Good(d) && d.fetched < |d.sent|
    ensures d.sent[d.fetched] in d.chains && d.avail[d.fetched % NUM] == d.sent[d.fetched]
            && Good(Fetch(d, d.sent[d.fetched]))
  {
    hide SentOk, DoneOk, DescOk, HolderOk;
    FetchRings(d);
    var h := d.sent[d.fetched];
    assert ChainOk(d, h);
    MovedGood(d, Fetch(d, h), h);
  }

  lemma ReportRings(d: Disk, h: nat)
    requires Good(d) && h in d.chains && d.chains[h].stage.Working? && h < NUM
    ensures var d' := Report(d, h);
            && (forall k: nat {:trigger SentOk(d', k)} :: k < |d'.sent| ==> SentOk(d', k))
            && (forall k: nat {:trigger DoneOk(d', k)} :: k < |d'.done| ==> DoneOk(d', k))
            && d'.devIdx == |d'.done| % U16
  {
    hide ChainOk, Formatted, DescOk, HolderOk;
    RingsFit(d);
    WrapMod(|d.done|);
    var d' := Report(d, h);
    forall k: nat | k < |d'.sent|
      ensures SentOk(d', k)
    {
      assert SentOk(d, k);
    }
    forall k: nat | k < |d'.done|
      ensures DoneOk(d', k)
    {
      if k < |d.done| {
        assert DoneOk(d, k);
        if d.seen <= k { RingApart(k, |d.done|, NUM); }
      }
    }
  }

  lemma ReportKeeps(d: Disk, h: nat)
    requires Good(d) && h in d.chains && d.chains[h].stage.Working?
    ensures h < NUM && Good(Report(d, h))
  {
    hide SentOk, DoneOk, DescOk, HolderOk;
    assert ChainOk(d, h);
    ReportRings(d, h);
    MovedGood(d, Report(d, h), h);
  }

  lemma NoticeRings(d: Disk)
    requires Good(d) && d.seen < |d.done|
    ensures var h := d.done[d.seen];
            && h in d.chains && d.chains[h].stage == Reported(d.seen) && d.used[d.usedIdx % NUM] == h
            && var d' := Notice(d, h);
               (forall k: nat {:trigger SentOk(d', k)} :: k < |d'.sent| ==> SentOk(d', k))
               && (forall k: nat {:trigger DoneOk(d', k)} :: k < |d'.done| ==> DoneOk(d', k))
               && d'.usedIdx == d'.seen % U16
  {
    hide ChainOk, Formatted, DescOk, HolderOk;
    var h := d.done[d.seen];
    assert DoneOk(d, d.seen);
    WrapMod(d.seen);
    var d' := Notice(d, h);
    forall k: nat | k < |d'.sent|
      ensures SentOk(d', k)
    {
      assert SentOk(d, k);
    }
    forall k: nat | k < |d'.done|
      ensures DoneOk(d', k)
    {
      assert DoneOk(d, k);
    }
  }

  lemma NoticeKeeps(d: Disk)
    requires Good(d) && d.seen < |d.done|
    ensures var h := d.done[d.seen];
            && h in d.chains && h < NUM && d.used[d.usedIdx % NUM] == h && d.info[h].status == 0
               && d.info[h].buf == d.chains[h].task.buf
            && Good(Notice(d, h))
  {
    hide SentOk, DoneOk, DescOk, HolderOk;
    NoticeRings(d);
    var h := d.done[d.seen];
    assert ChainOk(d, h);
    MovedGood(d, Notice(d, h), h);
  }

  // Retiring

  lemma RetireChain(d: Disk, h: nat, g: nat)
    requires Good(d) && h in d.chains && g in d.chains && g != h && d.chains[h].stage.Noticed?
    ensures Formatted(d, h) && ChainOk(Retire(d, h), g)
  {
    hide SentOk, DoneOk, DescOk, HolderOk;
    assert ChainOk(d, g) && ChainOk(d, h);
    ChainsApart(d, h, g);
  }

  lemma RetireCount(d: Disk, h: nat)
    requires Good(d) && h in d.chains && Formatted(d, h)
    ensures var d' := Retire(d, h); |d'.owner.Keys| == 3 * |d'.chains.Keys|
  {
    hide SentOk, DoneOk, DescOk, HolderOk, ChainOk;
    var d', c := Retire(d, h), d.chains[h];
    assert d'.owner.Keys == d.owner.Keys - {h, c.mid, c.last} && d'.chains.Keys == d.chains.Keys - {h};
    assert |{h, c.mid, c.last}| == 3;
  }

  lemma RetireDesc(d: Disk, h: nat, i: nat)
    requires Good(d) && h in d.chains && Formatted(d, h) && i < NUM
    ensures DescOk(Retire(d, h), i)
  {
    hide SentOk, DoneOk, HolderOk, ChainOk;
    assert DescOk(d, i);
  }

  lemma RetireHolder(d: Disk, h: nat, b: nat)
    requires Good(d) && h in d.chains && Formatted(d, h)
    ensures HolderOk(Retire(d, h), b)
  {
    hide SentOk, DoneOk, DescOk, Formatted;
    assert HolderOk(d, b);
  }

  lemma RetireKeeps(d: Disk, h: nat)
    requires Good(d) && h in d.chains && d.chains[h].stage.Noticed?
    ensures Formatted(d, h) && Good(Retire(d, h))
  {
    hide DescOk, HolderOk;
    assert ChainOk(d, h);
    hide ChainOk, Formatted;
    var d' := Retire(d, h);
    RetireCount(d, h);
    forall i: nat | i < NUM
      ensures DescOk(d', i)
    {
      RetireDesc(d, h, i);
    }
    forall b: nat
      ensures HolderOk(d', b)
    {
      RetireHolder(d, h, b);
    }
    forall g | g in d'.chains
      ensures ChainOk(d', g)
    {
      RetireChain(d, h, g);
    }
    forall k: nat | k < |d'.sent|
      ensures SentOk(d', k)
    {
      assert SentOk(d, k);
    }
    forall k: nat | k < |d'.done|
      ensures DoneOk(d', k)
    {
      assert DoneOk(d, k);
    }
  }

  // ----- counting free descriptors -----

  function FreeSet(free: seq<bool>): set<nat> { set i: nat | i < |free| && free[i] }

  lemma Complement(all: set<nat>, k: set<nat>)
    requires k <= all
    ensures |all - k| == |all| - |k|
  {
  }

  const ALL: set<nat> := {0, 1, 2, 3, 4, 5, 6, 7}

  lemma AllOfThem()
    ensures |ALL| == NUM && forall i: nat :: i in ALL <==> i < NUM
  {
  }

  lemma FreeCount(d: Disk)
    requires Good(d)
    ensures |FreeSet(d.free)| == NUM - 3 * |d.chains.Keys|
  {
    hide ChainOk, SentOk, DoneOk, HolderOk, ALL;
    AllOfThem();
    forall i: nat | i < NUM
      ensures i in FreeSet(d.free) <==> i !in d.owner
    {
      assert DescOk(d, i);
    }
    hide DescOk;
    assert FreeSet(d.free) == ALL - d.owner.Keys;
    Complement(ALL, d.owner.Keys);
  }

  /** `free` with the listed descriptors taken. */
  function Taken(free: seq<bool>, ids: seq<nat>): seq<bool> {
    seq(|free|, i requires 0 <= i < |free| => free[i] && i !in ids)
  }

  lemma FewFree(free: seq<bool>, ids: seq<nat>)
    requires |ids| <= 2 && (forall x :: x in ids ==> x < |free|) && forall i: nat :: i < |free| ==> !Taken(free, ids)[i]
    ensures |FreeSet(free)| < 3
  {
    var few := if ids == [] then {} else if |ids| == 1 then {ids[0]} else {ids[0], ids[1]};
    forall i | i in FreeSet(free)
      ensures i in few
    {
      assert !Taken(free, ids)[i];
    }
    SubsetSize(FreeSet(free), few);
  }

  /** What the interrupt handler may have made of a chain so far. */
  predicate Noted(c: Chain, c': Chain) { c' == c || (c.stage.Reported? && c' == c.(stage := Noticed)) }

  lemma NextReported(d: Disk)
    requires Good(d) && d.seen < |d.done|
    ensures d.done[d.seen] in d.chains && d.chains[d.done[d.seen]].stage.Reported?
  {
    assert DoneOk(d, d.seen);
  }

  lemma NoneReported(d: Disk, h: nat)
    requires Good(d) && d.seen == |d.done| && h in d.chains
    ensures !d.chains[h].stage.Reported?
  {
    assert ChainOk(d, h);
  }

  lemma IsFormatted(d: Disk, h: nat)
    requires Good(d) && h in d.chains
    ensures Formatted(d, h)
  {
    assert ChainOk(d, h);
  }

  lemma StillTaken(d: Disk, h: nat)
    requires Good(d) && h in d.chains
    ensures Formatted(d, h) && !d.free[h] && !d.free[d.chains[h].mid] && !d.free[d.chains[h].last]
  {
    assert ChainOk(d, h);
    assert DescOk(d, h) && DescOk(d, d.chains[h].mid) && DescOk(d, d.chains[h].last);
  }

  /** A request whose buffer is no longer marked as busy has been carried out by the device. */
  lemma NotBusyMeansDone(d: Disk, b: nat)
    requires Good(d) && b in d.holder && b !in d.busy
    ensures d.holder[b] in d.chains && d.chains[d.holder[b]].stage.Noticed? && d.chains[d.holder[b]].task.buf == b
  {
    assert HolderOk(d, b) && ChainOk(d, d.holder[b]);
  }

  // ----- virtio_disk.c -----

  class VirtioDisk {
    const desc: array<Desc>
    const free: array<bool>
    const ops: array<Req>
    const info: array<Info>
    const avail: array<nat>
    const used: array<nat>
    var availIdx: nat
    var devIdx: nat              // used->idx, which the device increments
    var usedIdx: nat
    var busy: set<nat>           // the buffers with b->disk == 1
    ghost var chains: map<nat, Chain>
    ghost var owner: map<nat, nat>
    ghost var holder: map<nat, nat>
    ghost var sent: seq<nat>
    var fetched: nat             // how many requests the device has taken, its own count
    ghost var done: seq<nat>
    ghost var seen: nat

    ghost function View(): Disk
      reads this, desc, free, ops, info, avail, used
    {
      Disk(desc[..], free[..], ops[..], info[..], avail[..], availIdx, used[..], devIdx, usedIdx, busy,
           chains, owner, holder, sent, fetched, done, seen)
    }

    ghost predicate Shaped()
      reads this, desc, free, ops, info, avail, used
    {
      desc.Length == free.Length == ops.Length == info.Length == avail.Length == used.Length == NUM && avail != used
    }

    ghost predicate Valid()
      reads this, desc, free, ops, info, avail, used
    {
      Shaped() && Sized(View()) && Good(View())
    }

    /** alloc_desc: the first free descriptor, or -1. */
    method AllocDesc() returns (r: int)
      requires Shaped()
      modifies free
      ensures r == -1 ==> free[..] == old(free[..]) && forall i :: 0 <= i < NUM ==> !free[i]
      ensures r != -1 ==>
                && 0 <= r < NUM && old(free[r]) && free[..] == old(free[..])[r := false]
                && forall i :: 0 <= i < r ==> !old(free[i])
    {
      var i := 0;
      while i < NUM
        invariant i <= NUM && free[..] == old(free[..]) && forall j :: 0 <= j < i ==> !free[j]
      {
        if free[i] {
          free[i] := false;
          return i;
        }
        i := i + 1;
      }
      r := -1;
    }

    /** free_desc.  Its panics are excluded. */
    method FreeDesc(i: nat)
      requires Shaped() && i < NUM && !free[i]
      modifies desc, free
      ensures desc[..] == old(desc[..])[i := NO_DESC] && free[..] == old(free[..])[i := true]
    {
      desc[i] := NO_DESC;
      free[i] := true;
    }

    /** alloc3_desc: three different descriptors, or none. */
    method Alloc3Desc() returns (ok: bool, idx: seq<nat>)
      requires Shaped()
      modifies desc, free
      ensures ok ==> |idx| == 3 && idx[0] != idx[1] && idx[0] != idx[2] && idx[1] != idx[2]
      ensures ok ==> forall k :: 0 <= k < 3 ==> idx[k] < NUM && old(free[idx[k]])
      ensures ok ==>
                && desc[..] == old(desc[..])
                && free[..] == old(free[..])[idx[0] := false][idx[1] := false][idx[2] := false]
      ensures !ok ==> free[..] == old(free[..]) && |FreeSet(free[..])| < 3
      ensures !ok ==> forall i :: 0 <= i < NUM && !free[i] ==> desc[i] == old(desc[i])
    {
      ghost var free0 := free[..];
      idx := [];
      ok := true;
      while |idx| < 3
        invariant |idx| <= 3 && desc[..] == old(desc[..])
        invariant forall k :: 0 <= k < |idx| ==> idx[k] < NUM && free0[idx[k]]
        invariant forall j, k :: 0 <= j < k < |idx| ==> idx[j] != idx[k]
        invariant free[..] == Taken(free0, idx)
        decreases 3 - |idx|
      {
        var r := AllocDesc();
        if r < 0 {
          FewFree(free0, idx);
          GiveBack(idx, free0);
          return false, [];
        }
        assert free0[r] && r !in idx by { assert Taken(free0, idx)[r]; }
        idx := idx + [r];
        assert free[..] == Taken(free0, idx);
      }
    }

    /** The loop of alloc3_desc that undoes what has been taken. */
    method GiveBack(idx: seq<nat>, ghost free0: seq<bool>)
      requires Shaped() && |free0| == NUM && forall k :: 0 <= k < |idx| ==> idx[k] < NUM && free0[idx[k]]
      requires (forall j, k :: 0 <= j < k < |idx| ==> idx[j] != idx[k]) && free[..] == Taken(free0, idx)
      modifies desc, free
      ensures free[..] == free0
      ensures forall i :: 0 <= i < NUM && !free[i] ==> desc[i] == old(desc[i])
    {
      assert forall i: nat :: i < NUM ==> free[i] == free[..][i];
      var j := 0;
      while j < |idx|
        invariant j <= |idx| && forall i: nat :: i < NUM ==> (free[i] <==> free0[i] && i !in idx[j..])
        invariant forall i :: 0 <= i < NUM && !free0[i] ==> desc[i] == old(desc[i])
      {
        assert idx[j..] == [idx[j]] + idx[j + 1..];
        FreeDesc(idx[j]);
        j := j + 1;
      }
    }

    /** virtio_disk_init, after the device has accepted the queue. */
    constructor ()
      ensures Valid() && chains == map[] && busy == {} && holder == map[]
      ensures fresh(desc) && fresh(free) && fresh(ops) && fresh(info) && fresh(avail) && fresh(used)
    {
      desc, free := new Desc[NUM](_ => NO_DESC), new bool[NUM](_ => true);
      ops, info := new Req[NUM](_ => Req(false, 0)), new Info[NUM](_ => Info(NO_BUF, 0));
      avail, used := new nat[NUM](_ => 0), new nat[NUM](_ => 0);
      availIdx, devIdx, usedIdx, busy := 0, 0, 0, {};
      chains, owner, holder, sent, fetched, done, seen := map[], map[], map[], [], 0, [], 0;
    }

    /** Formats the three descriptors, records the buffer, and publishes the head. */
    method Format(h: nat, m: nat, t: nat, b: nat, blockno: nat, write: bool)
      requires Shaped() && h < NUM && m < NUM && t < NUM && h != m && h != t && m != t
      modifies this`busy, this`availIdx, desc, ops, info, avail
      ensures ops[..] == old(ops[..])[h := Req(write, 2 * blockno)] && info[..] == old(info[..])[h := Info(b, 0xff)]
      ensures desc[..] == old(desc[..])[h := Desc(Request(h), true, false, m)][m := Desc(Data(b), true, !write,
              t)][t := Desc(Status(h), false, true, 0)]
      ensures avail[..] == old(avail[..])[old(availIdx) % NUM := h] && availIdx == (old(availIdx) + 1) % U16
              && busy == old(busy) + {b}
    {
      ops[h] := Req(write, blockno * (1024 / 512));
      desc[h] := Desc(Request(h), true, false, m);
      desc[m] := Desc(Data(b), true, !write, t);
      desc[t] := Desc(Status(h), false, true, 0);
      busy := busy + {b};
      info[h] := Info(b, 0xff);
      avail[availIdx % NUM] := h;
      availIdx := (availIdx + 1) % U16;
    }

    /** The same, with the history of the queue. */
    method Enqueue(h: nat, m: nat, t: nat, b: nat, blockno: nat, write: bool, ghost d: Disk)
      requires Shaped() && Sized(d) && h < NUM && m < NUM && t < NUM && h != m && h != t && m != t
      requires View() == d.(free := d.free[h := false][m := false][t := false])
      modifies this`busy, this`availIdx, this`chains, this`owner, this`holder, this`sent, desc, ops, info, avail
      ensures Shaped() && View() == Publish(d, h, m, t, Task(b, write, 2 * blockno))
    {
      hide Good, Formatted;
      Format(h, m, t, b, blockno, write);
      ghost var d' := Publish(d, h, m, t, Task(b, write, 2 * blockno));
      chains, owner, holder := d'.chains, d'.owner, d'.holder;
      sent := sent + [h];
      SameDisk(View(), d');
    }

    /** One attempt of virtio_disk_rw to start a request: it fails, and the caller sleeps until a
        descriptor is freed, exactly when two requests are in flight. */
    method Submit(b: nat, blockno: nat, write: bool) returns (ok: bool, head: nat)
      requires Valid() && b !in holder
      modifies this`busy, this`availIdx, this`chains, this`owner, this`holder, this`sent, desc, free, ops, info, avail
      ensures Valid() && (ok <==> |old(chains).Keys| < 2)
      ensures ok ==> head !in old(chains) && head in chains && chains[head].task == Task(b, write, 2 * blockno)
      ensures ok ==> b in busy && b in holder && holder == old(holder)[b := head] && sent == old(sent) + [head]
      ensures ok ==> forall g :: g in old(chains) ==> g in chains && chains[g] == old(chains)[g]
      ensures !ok ==> chains == old(chains) && sent == old(sent) && busy == old(busy) && holder == old(holder)
    {
      hide Good, DescOk, ChainOk, SentOk, DoneOk, HolderOk, FreeSet, Publish;
      ghost var d := View();
      FreeCount(d);
      AtMostTwo(d);
      var idx;
      ok, idx := Alloc3Desc();
      head := 0;
      if !ok {
        UnusedDesc(d, View());
        return;
      }
      var h, m, t := idx[0], idx[1], idx[2];
      head := h;
      ThreeFree(d.free, h, m, t);
      ghost var task := Task(b, write, 2 * blockno);
      PublishKeeps(d, h, m, t, task);
      PublishFacts(d, h, m, t, task);
      Enqueue(h, m, t, b, blockno, write, d);
    }

    /** free_chain, of the three descriptors of a request. */
    method FreeChain(i: nat, ghost m: nat, ghost t: nat)
      requires Shaped() && i < NUM && m < NUM && t < NUM && i != m && i != t && m != t && !free[i] && !free[m]
               && !free[t]
      requires desc[i].more && desc[i].next == m && desc[m].more && desc[m].next == t && !desc[t].more
      modifies desc, free
      ensures desc[..] == old(desc[..])[i := NO_DESC][m := NO_DESC][t := NO_DESC]
      ensures free[..] == old(free[..])[i := true][m := true][t := true]
    {
      var cur, flag := i, true;
      ghost var step := 0;
      while flag
        invariant step <= 3 && (flag <==> step < 3)
        invariant step == 0 ==> cur == i && desc[..] == old(desc[..]) && free[..] == old(free[..])
        invariant step == 1 ==>
                    && cur == m && desc[..] == old(desc[..])[i := NO_DESC]
                    && free[..] == old(free[..])[i := true]
        invariant step == 2 ==>
                    && cur == t && desc[..] == old(desc[..])[i := NO_DESC][m := NO_DESC]
                    && free[..] == old(free[..])[i := true][m := true]
        invariant step == 3 ==> desc[..] == old(desc[..])[i := NO_DESC][m := NO_DESC][t := NO_DESC]
                                && free[..] == old(free[..])[i := true][m := true][t := true]
        decreases 3 - step
      {
        flag := desc[cur].more;
        var nxt := desc[cur].next;
        FreeDesc(cur);
        if flag {
          cur := nxt;
        }
        step := step + 1;
      }
    }

    /** The end of virtio_disk_rw, once b->disk is 0. */
    method Finish(b: nat, head: nat)
      requires Valid() && b in holder && holder[b] == head && b !in busy
      modifies this`chains, this`owner, this`holder, desc, free, info
      ensures Valid() && head in old(chains) && old(chains)[head].task.buf == b && old(chains)[head].stage.Noticed?
      ensures chains == old(chains) - {head} && holder == old(holder) - {b}
    {
      hide Good, DescOk, SentOk, DoneOk, HolderOk;
      ghost var d := View();
      NotBusyMeansDone(d, b);
      RetireKeeps(d, head);
      ghost var c, d' := chains[head], Retire(d, head);
      StillTaken(d, head);
      info[head] := info[head].(buf := NO_BUF);
      FreeChain(head, c.mid, c.last);
      chains, owner, holder := d'.chains, d'.owner, d'.holder;
      SameDisk(View(), d');
    }

    /** One iteration of the interrupt handler.  Its status panic is excluded by the device's
        promise. */
    method IntrOne()
      requires Valid() && seen < |done|
      modifies this`busy, this`usedIdx, this`chains, this`seen
      ensures Valid() && seen == old(seen) + 1 && done[old(seen)] in old(chains)
      ensures var h := done[old(seen)];
              && old(chains)[h].stage.Reported? && chains == old(chains)[h := old(chains)[h].(stage := Noticed)]
              && busy == old(busy) - {old(chains)[h].task.buf}
    {
      hide Good, DescOk, SentOk, DoneOk, HolderOk, ChainOk;
      ghost var d := View();
      NoticeKeeps(d);
      NextReported(d);
      var id := used[usedIdx % NUM];
      assert info[id].status == 0;               // no "virtio_disk_intr status" panic
      var b := info[id].buf;
      busy := busy - {b};
      usedIdx := (usedIdx + 1) % U16;
      seen := seen + 1;
      chains := chains[id := chains[id].(stage := Noticed)];
      SameDisk(View(), Notice(d, id));
    }

    /** The interrupt handler: every request reported so far is noticed. */
    method Intr()
      requires Valid()
      modifies this`busy, this`usedIdx, this`chains, this`seen
      ensures Valid() && seen == |done| && usedIdx == devIdx
      ensures chains.Keys == old(chains.Keys)
      ensures forall h :: h in chains ==>
                chains[h] ==
                if old(chains)[h].stage.Reported? then old(chains)[h].(stage := Noticed) else old(chains)[h]
    {
      hide Good, DescOk, SentOk, DoneOk, HolderOk, ChainOk;
      RingsFit(View());
      while usedIdx != devIdx
        invariant Valid() && chains.Keys == old(chains.Keys) && seen <= |done| && (usedIdx != devIdx <==> seen < |done|)
        invariant forall h :: h in chains ==> Noted(old(chains)[h], chains[h])
        decreases |done| - seen
      {
        IntrOne();
        RingsFit(View());
      }
      forall h | h in chains
        ensures !chains[h].stage.Reported?
      {
        NoneReported(View(), h);
      }
    }

    /** The device takes the next request; what it reads is what was submitted. */
    method DeviceFetch() returns (head: nat, task: Task)
      requires Valid() && fetched < |sent|
      modifies this`chains, this`fetched
      ensures Valid() && head == sent[old(fetched)] && head in old(chains) && task == old(chains)[head].task
      ensures chains == old(chains)[head := old(chains)[head].(stage := Working)] && fetched == old(fetched) + 1
      // a header to read, the buffer, to be written if the request reads the disk, and a status to write
      ensures desc.Length == NUM && head < NUM && desc[head].next < NUM && desc[desc[head].next].next < NUM
      ensures var first, second := desc[head], desc[desc[head].next];
              var third := desc[second.next];
              && first.more && second.more && !third.more && third.addr == Status(head)
              && !first.write && (second.write <==> !task.write) && third.write
    {
      hide Good, DescOk, SentOk, DoneOk, HolderOk;
      ghost var d := View();
      FetchKeeps(d);
      WrapMod(fetched);
      head := NextSent();
      IsFormatted(d, head);
      var first := desc[head];
      var second := desc[first.next];
      task := Task(second.addr.buf, ops[first.addr.op].write, ops[first.addr.op].sector);
      chains := chains[head := chains[head].(stage := Working)];
      fetched := fetched + 1;
      SameDisk(View(), Fetch(d, head));
    }

    /** The device's look at the avail ring: its own index is the number of requests taken. */
    method NextSent() returns (head: nat)
      requires Valid() && fetched < |sent|
      ensures head == sent[fetched]
    {
      assert SentOk(View(), fetched);
      head := avail[fetched % NUM];
    }

    /** The device has carried out a request it took. */
    method DeviceReport(head: nat)
      requires Valid() && head in chains && chains[head].stage.Working?
      modifies this`chains, this`devIdx, this`done, info, used
      ensures Valid() && chains == old(chains)[head := old(chains)[head].(stage := Reported(|old(done)|))]
              && done == old(done) + [head]
    {
      hide Good, DescOk, SentOk, DoneOk, HolderOk, ChainOk;
      ghost var d := View();
      ReportKeeps(d, head);
      info[head] := info[head].(status := 0);
      used[devIdx % NUM] := head;
      devIdx := (devIdx + 1) % U16;
      chains := chains[head := chains[head].(stage := Reported(|done|))];
      done := done + [head];
      SameDisk(View(), Report(d, head));
    }
  }

  lemma SameDisk(d: Disk, d': Disk)
    requires d.desc == d'.desc && d.free == d'.free && d.ops == d'.ops && d.info == d'.info && d.avail == d'.avail
             && d.availIdx == d'.availIdx
    requires d.used == d'.used && d.devIdx == d'.devIdx && d.usedIdx == d'.usedIdx && d.busy == d'.busy
             && d.chains == d'.chains
    requires d.owner == d'.owner && d.holder == d'.holder && d.sent == d'.sent && d.fetched == d'.fetched
             && d.done == d'.done && d.seen == d'.seen
    ensures d == d'
  {
  }

  /** What a free descriptor holds does not matter. */
  lemma UnusedDesc(d: Disk, d': Disk)
    requires Good(d) && d' == d.(desc := d'.desc) && |d'.desc| == NUM
             && forall i: nat {:trigger d'.desc[i]} :: i < NUM && !d.free[i] ==> d'.desc[i] == d.desc[i]
    ensures Good(d')
  {
    forall i: nat | i < NUM
      ensures DescOk(d', i)
    {
      assert DescOk(d, i);
    }
    forall h | h in d'.chains
      ensures ChainOk(d', h)
    {
      assert ChainOk(d, h);
      assert DescOk(d, h) && DescOk(d, d.chains[h].mid) && DescOk(d, d.chains[h].last);
    }
    forall k: nat | k < |d'.sent|
      ensures SentOk(d', k)
    {
      assert SentOk(d, k);
    }
    forall k: nat | k < |d'.done|
      ensures DoneOk(d', k)
    {
      assert DoneOk(d, k);
    }
    forall b: nat
      ensures HolderOk(d', b)
    {
      assert HolderOk(d, b);
    }
  }

  lemma ThreeFree(free: seq<bool>, h: nat, m: nat, t: nat)
    requires h < |free| && m < |free| && t < |free| && free[h] && free[m] && free[t] && h != m && h != t && m != t
    ensures |FreeSet(free)| >= 3
  {
    SubsetSize({h, m, t}, FreeSet(free));
  }

  lemma PublishFacts(d: Disk, h: nat, m: nat, t: nat, task: Task)
    requires Sized(d) && h < NUM && m < NUM && t < NUM && h !in d.chains
    ensures var d' := Publish(d, h, m, t, task);
            && h in d'.chains && d'.chains[h].task == task && d'.holder == d.holder[task.buf := h]
               && d'.sent == d.sent + [h]
            && task.buf in d'.busy && Sized(d')
            && forall g :: g in d.chains ==> g in d'.chains && d'.chains[g] == d.chains[g]
  {
  }
}
