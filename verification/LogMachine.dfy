/** The write-ahead log as a machine whose steps are single block writes.  Any number of
    operations interleave, buffers come and go, and a crash may fall between any two steps,
    those of recovery included. */
module LogMachine {
  import opened Common
  import opened LogSpec

  const LOGSIZE: nat := 30   // MAXOPBLOCKS * 3

  /** Where the log lies: `start` is the header block, `size` counts it and the data blocks
      after it, `total` is the size of the disk. */
  datatype Layout = Layout(start: nat, size: nat, total: nat) {
    ghost predicate Valid() { 1 <= size && start + size <= total }

    /** A block outside the log. */
    predicate Home(b: nat) { b < total && !(start <= b < start + size) }
  }

  /** Where the single committing or recovering thread is.  Everything but `Idle` and the
      two recovery states is reached with log.committing set. */
  datatype Pc =
    | Idle
    | Entry                      // end_op has set committing
    | Logging(tail: nat)         // write_log
    | Installing(tail: nat)      // install_trans(0), header on disk
    | Leaving                    // commit() has returned
    | Restarted                  // after a crash
    | Recovering(tail: nat)      // install_trans(1)

  datatype State = State(
    disk: seq<Block>,
    cache: map<nat, Block>,      // valid buffers
    pins: set<nat>,              // buffers the log holds a reference to (bpin)
    lh: seq<nat>,                // log.lh.block[..log.lh.n]
    active: set<nat>,            // outstanding operations
    wrote: set<(nat, nat)>,      // (operation, block) logged by outstanding operations
    next: nat,
    pc: Pc)
  {
    /** What bread returns. */
    function Read(b: nat): Block
      requires b < |disk|
    {
      if b in cache then cache[b] else disk[b]
    }

    /** bwrite of a buffer whose contents have just become `d`. */
    function WriteBlock(b: nat, d: Block): State
      requires b < |disk|
    {
      this.(disk := disk[b := d], cache := cache[b := d])
    }
  }

  // ----- the header block -----

  predicate HeadOk(b: Block) { b[0] <= LOGSIZE }

  /** read_head: the count, then that many block numbers. */
  function HeadBlocks(b: Block): seq<nat>
    requires HeadOk(b)
  {
    b[1..1 + b[0]]
  }

  /** write_head: overwrites the count and the first entries, leaving the rest as it was. */
  function PutHead(b: Block, lh: seq<nat>): (r: Block)
    requires |lh| <= LOGSIZE
    ensures HeadOk(r) && HeadBlocks(r) == lh
  {
    [|lh|] + lh + b[1 + |lh|..]
  }

  /** Where `b` stands in the list. */
  function IndexOf(s: seq<nat>, b: nat): (i: nat)
    requires b in s
    ensures i < |s| && s[i] == b
  {
    if s[0] == b then 0 else 1 + IndexOf(s[1..], b)
  }

  // ----- what a crash leaves -----

  /** The contents block `b` has once recovery has run on this disk. */
  ghost function Recovered(L: Layout, disk: seq<Block>, b: nat): Block
    requires DiskOk(L, disk) && b < |disk|
  {
    var head := HeadBlocks(disk[L.start]);
    if b in head then disk[L.start + 1 + IndexOf(head, b)] else disk[b]
  }

  /** A list of block numbers the log can hold. */
  ghost predicate ListOk(L: Layout, lh: seq<nat>) {
    && |lh| <= LOGSIZE && |lh| < L.size
    && Distinct(lh)
    && forall i :: 0 <= i < |lh| ==> L.Home(lh[i])
  }

  ghost predicate DiskOk(L: Layout, disk: seq<Block>) {
    && L.Valid() && |disk| == L.total
    && HeadOk(disk[L.start]) && ListOk(L, HeadBlocks(disk[L.start]))
  }

  // ----- steps -----

  function Without(wrote: set<(nat, nat)>, op: nat): set<(nat, nat)> {
    set p | p in wrote && p.0 != op
  }

  predicate LogFull(L: Layout, lh: seq<nat>) { |lh| >= LOGSIZE || |lh| >= L.size - 1 }

  /** The step of each event, and when it can be taken. */
  ghost predicate Enabled(L: Layout, s: State, e: Event) {
    && Sane(L, s)
    && match e
       case Load(b) => b < L.total && b !in s.cache
       case Evict(b) => b in s.cache && b !in s.pins
       case Begin => s.pc == Idle && |s.lh| + (|s.active| + 1) * MAXOPBLOCKS <= LOGSIZE
       case Write(op, b, _) => s.pc == Idle && op in s.active && L.Home(b) && !LogFull(L, s.lh)
       case End(op) => s.pc == Idle && op in s.active
       case EnterCommit => s.pc == Entry
       case CopyToLog => s.pc.Logging? && s.pc.tail < |s.lh|
       case CommitHead => s.pc == Logging(|s.lh|)
       case Install => s.pc.Installing? && s.pc.tail < |s.lh| && s.lh[s.pc.tail] in s.pins
       case ClearHead => s.pc == Installing(|s.lh|) || s.pc == Recovering(|s.lh|)
       case Reopen => s.pc == Leaving
       case Crash => true
       case ReadHead => s.pc == Restarted && HeadOk(s.Read(L.start))
       case Replay => s.pc.Recovering? && s.pc.tail < |s.lh|
  }

  ghost function Do(L: Layout, s: State, e: Event): State
    requires Enabled(L, s, e)
  {
    match e
    case Load(b) => s.(cache := s.cache[b := s.disk[b]])
    case Evict(b) => s.(cache := s.cache - {b})
    case Begin => s.(active := s.active + {s.next}, next := s.next + 1)
    case Write(op, b, d) => LogWrite(s, op, b, d)
    case End(op) => EndOp(s, op)
    case EnterCommit => s.(pc := if |s.lh| > 0 then Logging(0) else Leaving)
    case CopyToLog => CopyOne(L, s, s.pc.tail)
    case CommitHead => CommitOne(L, s)
    case Install => InstallOne(L, s, s.pc.tail)
    case ClearHead => ClearOne(L, s)
    case Reopen => s.(pc := Idle)
    case Crash => s.(cache := map[], pins := {}, lh := [], active := {}, wrote := {}, pc := Restarted)
    case ReadHead =>
      var head := s.Read(L.start);
      s.(lh := HeadBlocks(head), cache := s.cache[L.start := head], pc := Recovering(0))
    case Replay => ReplayOne(L, s, s.pc.tail)
  }

  /** Enough for every step to stay inside the disk. */
  ghost predicate Sane(L: Layout, s: State) {
    && |s.disk| == L.total && L.Valid() && |s.lh| <= LOGSIZE && |s.lh| < L.size
    && forall i :: 0 <= i < |s.lh| ==> s.lh[i] < L.total
  }

  ghost function LogWrite(s: State, op: nat, b: nat, d: Block): State {
    var s' := s.(cache := s.cache[b := d], wrote := s.wrote + {(op, b)});
    if b in s.lh then s' else s'.(lh := s.lh + [b], pins := s.pins + {b})
  }

  ghost function EndOp(s: State, op: nat): State {
    s.(active := s.active - {op},
    wrote := Without(s.wrote, op),
    pc := if s.active - {op} == {} then Entry else Idle)
  }

  ghost function CopyOne(L: Layout, s: State, t: nat): State
    requires Sane(L, s) && t < |s.lh|
  {
    s.WriteBlock(L.start + 1 + t, s.Read(s.lh[t])).(pc := Logging(t + 1))
  }

  ghost function CommitOne(L: Layout, s: State): State
    requires Sane(L, s)
  {
    s.WriteBlock(L.start, PutHead(s.Read(L.start), s.lh)).(pc := Installing(0))
  }

  ghost function InstallOne(L: Layout, s: State, t: nat): State
    requires Sane(L, s) && t < |s.lh|
  {
    s.WriteBlock(s.lh[t], s.Read(L.start + 1 + t)).(pins := s.pins - {s.lh[t]}, pc := Installing(t + 1))
  }

  ghost function ReplayOne(L: Layout, s: State, t: nat): State
    requires Sane(L, s) && t < |s.lh|
  {
    s.WriteBlock(s.lh[t], s.Read(L.start + 1 + t)).(pc := Recovering(t + 1))
  }

  ghost function ClearOne(L: Layout, s: State): State
    requires Sane(L, s)
  {
    s.WriteBlock(L.start, PutHead(s.Read(L.start), [])).(lh := [], pc := if s.pc.Installing? then Leaving else Idle)
  }

  ghost predicate Runs(L: Layout, s: State, es: seq<Event>)
    decreases |es|, 0
  {
    es == [] ||
    (Runs(L, s, es[..|es| - 1]) && Enabled(L, Run(L, s, es[..|es| - 1]), es[|es| - 1]))
  }

  ghost function Run(L: Layout, s: State, es: seq<Event>): State
    requires Runs(L, s, es)
    decreases |es|, 1
  {
    if es == [] then s else Do(L, Run(L, s, es[..|es| - 1]), es[|es| - 1])
  }

  /** The machine when power comes on: any disk with a readable header. */
  ghost predicate Initial(L: Layout, s: State) {
    && DiskOk(L, s.disk)
    && s == State(s.disk, map[], {}, [], {}, {}, 0, Restarted)
  }

  // ----- the invariant -----

  ghost predicate Inv(L: Layout, s: State) {
    && Base(L, s)
    && match s.pc
       case Idle => IdleOk(L, s)
       case Entry => LoggingOk(L, s, 0)
       case Logging(t) => LoggingOk(L, s, t)
       case Installing(t) => InstallingOk(L, s, t)
       case Leaving => LoggingOk(L, s, 0) && s.lh == []
       case Restarted => Quiet(s) && s.pins == {} && s.lh == []
       case Recovering(t) => RecoveringOk(L, s, t)
  }

  ghost predicate Base(L: Layout, s: State) {
    && DiskOk(L, s.disk) && ListOk(L, s.lh)
    && (forall b :: b in s.cache ==> b < |s.disk|)
    && Clean(s)
  }

  ghost predicate IdleOk(L: Layout, s: State)
    requires Base(L, s)
  {
    && HeadBlocks(s.disk[L.start]) == [] && Dirty(s)
    && forall p :: p in s.wrote ==> p.0 in s.active && p.1 in s.lh
  }

  ghost predicate LoggingOk(L: Layout, s: State, t: nat)
    requires Base(L, s)
  {
    && HeadBlocks(s.disk[L.start]) == [] && Dirty(s) && Quiet(s) && t <= |s.lh|
    && forall i :: 0 <= i < t ==> s.disk[L.start + 1 + i] == s.cache[s.lh[i]]
  }

  ghost predicate InstallingOk(L: Layout, s: State, t: nat)
    requires Base(L, s)
  {
    && HeadBlocks(s.disk[L.start]) == s.lh && Quiet(s) && t <= |s.lh|
    && Pinned(s, t)
    && (forall i :: t <= i < |s.lh| ==> s.lh[i] in s.cache && s.cache[s.lh[i]] == s.disk[L.start + 1 + i])
    && (forall i :: 0 <= i < t ==> s.disk[s.lh[i]] == s.disk[L.start + 1 + i])
  }

  ghost predicate RecoveringOk(L: Layout, s: State, t: nat)
    requires Base(L, s)
  {
    && HeadBlocks(s.disk[L.start]) == s.lh && Quiet(s) && t <= |s.lh| && s.pins == {}
    && (forall i :: 0 <= i < t ==> s.disk[s.lh[i]] == s.disk[L.start + 1 + i])
  }

  /** Logged blocks are pinned in the cache. */
  ghost predicate Dirty(s: State)
  {
    && Pinned(s, 0)
    && (forall i :: 0 <= i < |s.lh| ==> s.lh[i] in s.cache)
  }

  /** The log holds a reference to exactly the blocks it has still to install. */
  ghost predicate Pinned(s: State, t: nat) {
    && (forall i :: t <= i < |s.lh| ==> s.lh[i] in s.pins)
    && (forall b :: b in s.pins ==> exists i :: t <= i < |s.lh| && s.lh[i] == b)
  }

  /** Every block not pinned that is cached agrees with the disk. */
  ghost predicate Clean(s: State)
    requires forall b :: b in s.cache ==> b < |s.disk|
  {
    forall b :: b in s.cache && b !in s.pins ==> s.cache[b] == s.disk[b]
  }

  ghost predicate Quiet(s: State) { s.active == {} && s.wrote == {} }

  /** How the machine stands to the specification, started on a disk whose home blocks
      were `home`: what a crash now would leave is exactly the committed updates, and what
      operations read is those and the pending ones. */
  ghost predicate Refines(L: Layout, home: seq<Block>, s: State, sp: Spec)
    requires Inv(L, s)
  {
    && |home| == L.total
    && sp.active == s.active && sp.next == s.next
    && (forall b: nat :: L.Home(b) ==> Recovered(L, s.disk, b) == Apply(home, sp.committed)[b])
    && (forall b: nat :: L.Home(b) ==> Latest(L, s, b) == Apply(home, sp.committed + sp.pending)[b])
    && (s.lh == [] || !(s.pc.Idle? || s.pc.Entry? || s.pc.Logging?) ==> sp.pending == [])
  }

  /** What an operation that reads block `b` finds; during recovery, what it will find. */
  ghost function Latest(L: Layout, s: State, b: nat): Block
    requires DiskOk(L, s.disk) && b < L.total
  {
    if s.pc.Restarted? || s.pc.Recovering? then Recovered(L, s.disk, b) else s.Read(b)
  }
}
