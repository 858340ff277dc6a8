/** File writes through the log: whenever the machine stops in the middle of one, recovery finds a
    consistent file system, namely the one before the write or the one after it. */
module CrashSafe {
  import Common
  import LogSpec
  import LogMachine
  import LogProof
  import LogAdmission
  import LogCode
  import FsDisk
  import FsModel
  import FsFiles
  import FileSystem
  import FileWrite

  type Layout = LogMachine.Layout
  type Fs = FsModel.Fs
  type Tickets = set<(nat, nat)>

  /** The words of a block of bytes, as the log sees it. */
  function Words(b: FsDisk.Block): LogSpec.Block { FsModel.WordsFrom(b, 0, 256) }

  lemma LowByte(x: FsDisk.Byte, w: nat)
    ensures (x + 256 * w) % 256 == x && (x + 256 * w) / 256 == w
  {
  }

  lemma SameBytes(a: (FsDisk.Byte, FsDisk.Byte, FsDisk.Byte, FsDisk.Byte),
                  b: (FsDisk.Byte, FsDisk.Byte, FsDisk.Byte, FsDisk.Byte))
    requires FsDisk.Join(a.0, a.1, a.2, a.3) == FsDisk.Join(b.0, b.1, b.2, b.3)
    ensures a == b
  {
    LowByte(a.0, a.1 + 0x100 * a.2 + 0x1_0000 * a.3);
    LowByte(b.0, b.1 + 0x100 * b.2 + 0x1_0000 * b.3);
    LowByte(a.1, a.2 + 0x100 * a.3);
    LowByte(b.1, b.2 + 0x100 * b.3);
  }

  /** No byte is lost: blocks with the same words are the same. */
  lemma WordsFaithful(a: FsDisk.Block, b: FsDisk.Block)
    requires Words(a) == Words(b)
    ensures a == b
  {
    forall i | 0 <= i < 1024
      ensures a[i] == b[i]
    {
      SameQuad(a, b, i / 4);
      assert i == 4 * (i / 4) + i % 4 && i % 4 in {0, 1, 2, 3};
    }
  }

  lemma WordAt(a: FsDisk.Block, j: nat)
    requires j < 256
    ensures Words(a)[j] == FsDisk.Word(a, j)
  {
  }

  lemma SameQuad(a: FsDisk.Block, b: FsDisk.Block, j: nat)
    requires Words(a) == Words(b) && j < 256
    ensures forall k :: 4 * j <= k < 4 * j + 4 ==> a[k] == b[k]
  {
    hide FsDisk.Join, Words;
    WordAt(a, j);
    WordAt(b, j);
    SameBytes((a[4 * j], a[4 * j + 1], a[4 * j + 2], a[4 * j + 3]),
      (b[4 * j], b[4 * j + 1], b[4 * j + 2], b[4 * j + 3]));
  }

  /** The inodes, the free map and the data lie behind the log, which has room for one operation. */
  ghost predicate Fits(L: Layout, sb: FsModel.Super) {
    L.Valid() && L.total == sb.size && L.start + L.size <= sb.inodestart && Common.MAXOPBLOCKS < L.size
  }

  /** Outside the log, `blocks` is the disk of `fs`. */
  ghost predicate Shows(L: Layout, blocks: seq<LogSpec.Block>, fs: Fs) {
    && |blocks| == L.total == |fs.disk|
    && forall b: nat {:trigger blocks[b]} :: L.Home(b) ==> blocks[b] == Words(fs.disk[b])
  }

  /** Recovery of this disk brings about the consistent file system `fs`. */
  ghost predicate Recovers(L: Layout, disk: seq<LogSpec.Block>, fs: Fs) {
    && Fits(L, fs.sb) && FileSystem.Consistent(fs) && LogMachine.DiskOk(L, disk) && |fs.disk| == L.total
    && forall b: nat {:trigger LogMachine.Recovered(L, disk, b)} :: L.Home(b) ==>
       LogMachine.Recovered(L, disk, b) == Words(fs.disk[b])
  }

  /** If the machine, started in `s`, stops after the steps `es`, recovery brings about `fs`. */
  ghost predicate StopsAt(L: Layout, s: LogMachine.State, es: seq<LogSpec.Event>, fs: Fs) {
    LogMachine.Initial(L, s) && LogMachine.Runs(L, s, es) && Recovers(L, LogMachine.Run(L, s, es).disk, fs)
  }

  ghost predicate StopsWell(L: Layout, s: LogMachine.State, es: seq<LogSpec.Event>) {
    exists fs :: StopsAt(L, s, es, fs)
  }

  /** Wherever the machine had stopped so far, a consistent file system would have been recovered. */
  ghost predicate Safe(L: Layout, s: LogMachine.State, es: seq<LogSpec.Event>) {
    forall k: nat {:trigger es[..k]} :: k <= |es| ==> StopsWell(L, s, es[..k])
  }

  /** Between operations: the log is clean, and the disk holds what the file system shows. */
  ghost predicate Joined(log: LogCode.Log, fs: Fs)
    reads log
  {
    && log.Valid() && log.pc.Idle? && log.n == 0 && log.outstanding == 0 && !log.committing
    && Fits(log.L, fs.sb) && FileSystem.Consistent(fs) && Shows(log.L, log.disk, fs)
  }

  // ----- what the specification of the log says of one operation -----

  /** Nothing has been committed up to any moment if nothing has at the end. */
  lemma CommittedBefore(es: seq<LogSpec.Event>, j: nat, k: nat, m: nat)
    requires j <= k <= m <= |es| && LogSpec.SpecRun(es[..m]).committed == LogSpec.SpecRun(es[..j]).committed
    ensures LogSpec.SpecRun(es[..k]).committed == LogSpec.SpecRun(es[..j]).committed
  {
    assert es[..m][..k] == es[..k] && es[..k][..j] == es[..j];
    LogSpec.DurableOnlyGrows(es[..m], k);
    LogSpec.DurableOnlyGrows(es[..k], j);
  }

  lemma {:induction false} IssuedGrows(es: seq<LogSpec.Event>, k: nat)
    requires k <= |es|
    ensures |LogSpec.SpecRun(es[..k]).issued| <= |LogSpec.SpecRun(es).issued|
  {
    if k == |es| {
      assert es[..k] == es;
    } else {
      IssuedGrows(es[..|es| - 1], k);
      assert es[..|es| - 1][..k] == es[..k];
    }
  }

  /** While nothing is written, what is pending becomes durable whole or not at all. */
  lemma {:induction false} CommittedOnce(es: seq<LogSpec.Event>, m: nat, k: nat)
    requires m <= k <= |es| && |LogSpec.SpecRun(es).issued| == |LogSpec.SpecRun(es[..m]).issued|
    ensures var sp, now := LogSpec.SpecRun(es[..m]), LogSpec.SpecRun(es[..k]);
            || (now.committed == sp.committed && (now.pending == sp.pending || now.pending == []))
            || (now.committed == sp.committed + sp.pending && now.pending == [])
    decreases k
  {
    if k > m {
      CommittedOnce(es, m, k - 1);
      assert es[..k][..k - 1] == es[..k - 1] && es[..k][..m] == es[..m];
      IssuedGrows(es, k);
      IssuedGrows(es[..k - 1], m);
      assert es[..k - 1][..m] == es[..m];
      var sp, last := LogSpec.SpecRun(es[..m]), LogSpec.SpecRun(es[..k - 1]);
      assert sp.committed + [] == sp.committed && sp.committed + sp.pending + [] == sp.committed + sp.pending;
      assert LogSpec.SpecRun(es[..k]) == LogSpec.SpecStep(last, es[k - 1]);
    }
  }

  // ----- from the specification back to the disk -----

  lemma {:induction false} RunsPrefix(L: Layout, s: LogMachine.State, es: seq<LogSpec.Event>, k: nat)
    requires LogMachine.Runs(L, s, es) && k <= |es|
    ensures LogMachine.Runs(L, s, es[..k])
  {
    if k == |es| {
      assert es[..k] == es;
    } else {
      RunsPrefix(L, s, es[..|es| - 1], k);
      assert es[..|es| - 1][..k] == es[..k];
    }
  }

  /** The updates `us` make `fs`. */
  ghost predicate Commits(L: Layout, s: LogMachine.State, us: seq<LogSpec.Update>, fs: Fs)
    requires LogMachine.DiskOk(L, s.disk)
  {
    Shows(L, LogSpec.Apply(LogProof.HomeOf(L, s), us), fs)
  }

  lemma StopsThere(L: Layout, s: LogMachine.State, es: seq<LogSpec.Event>, fs: Fs)
    requires LogMachine.Initial(L, s) && LogMachine.Runs(L, s, es) && Fits(L, fs.sb) && FileSystem.Consistent(fs)
    requires Commits(L, s, LogSpec.SpecRun(es).committed, fs)
    ensures StopsAt(L, s, es, fs)
  {
    hide LogMachine.Recovered, LogMachine.Enabled, LogMachine.Do, LogSpec.SpecRun, LogSpec.Apply, FileSystem.Consistent;
    LogProof.CrashAtomicity(L, s, es);
    var blocks := LogSpec.Apply(LogProof.HomeOf(L, s), LogSpec.SpecRun(es).committed);
    var disk := LogMachine.Run(L, s, es).disk;
    assert LogMachine.DiskOk(L, disk);
    forall b: nat | L.Home(b)
      ensures LogMachine.Recovered(L, disk, b) == Words(fs.disk[b])
    {
      assert blocks[b] == Words(fs.disk[b]);
    }
  }

  // ----- one transaction -----

  /** What operations read is the disk of `fs`, except that the blocks of `todo` are still as in `before`. */
  ghost predicate Reads(L: Layout, home: seq<LogSpec.Block>, sp: LogSpec.Spec, fs: Fs, before: Fs, todo: set<nat>) {
    var blocks := LogSpec.Apply(home, sp.committed + sp.pending);
    && |home| == L.total == |fs.disk| == |before.disk|
    && forall b: nat {:trigger blocks[b]} :: L.Home(b) ==>
       blocks[b] == Words(if b in todo then before.disk[b] else fs.disk[b])
  }

  /** log_write of one more block. */
  lemma ReadsWritten(L: Layout, home: seq<LogSpec.Block>, sp: LogSpec.Spec, op: nat, b: nat, fs: Fs, before: Fs,
                     todo: set<nat>)
    requires Reads(L, home, sp, fs, before, todo) && b < |fs.disk|
    ensures Reads(L, home, LogSpec.SpecStep(sp, LogSpec.Write(op, b, Words(fs.disk[b]))), fs, before, todo - {b})
  {
    hide LogSpec.Apply, Words;
    var d := Words(fs.disk[b]);
    var us, u := sp.committed + sp.pending, LogSpec.Update(op, b, d);
    assert sp.committed + (sp.pending + [u]) == us + [u];
    forall x: nat | L.Home(x)
      ensures LogSpec.Apply(home, us + [u])[x] == Words(if x in todo - {b} then before.disk[x] else fs.disk[x])
    {
      LogProof.ApplyOne(home, us, u, x);
      assert LogSpec.Apply(home, us)[x] == Words(if x in todo then before.disk[x] else fs.disk[x]);
    }
  }

  ghost predicate Half(log: LogCode.Log, fs: Fs, before: Fs, todo: set<nat>)
    reads log
    requires LogMachine.DiskOk(log.L, log.origin.disk)
  {
    Reads(log.L, LogProof.HomeOf(log.L, log.origin), LogSpec.SpecRun(log.trace), fs, before, todo)
  }

  /** Every operation in progress holds at most MAXOPBLOCKS tickets, each good for one log_write, and
      the log has room for all of them. */
  ghost predicate Room(L: Layout, n: nat, active: set<nat>, tickets: Tickets) {
    && n + |tickets| <= LogMachine.LOGSIZE && n + |tickets| < L.size
    && (forall t :: t in tickets ==> t.0 in active)
    && forall op :: op in active ==> |LogAdmission.Mine(tickets, op)| <= Common.MAXOPBLOCKS
  }

  /** Operations may be in progress, and nothing has been committed since the steps `es`. */
  ghost predicate Open(log: LogCode.Log, tickets: Tickets, es: seq<LogSpec.Event>)
    reads log
  {
    && log.Valid() && log.pc.Idle? && Room(log.L, log.n, log.active, tickets)
    && es <= log.trace && LogSpec.SpecRun(log.trace).committed == LogSpec.SpecRun(es).committed
  }

  /** Operations are in progress, sharing the log: they read `fs`, and `base` is what has been
      committed. */
  ghost predicate Shared(log: LogCode.Log, tickets: Tickets, base: Fs, fs: Fs)
    reads log
  {
    && Open(log, tickets, log.trace)
    && Fits(log.L, base.sb) && FileSystem.Consistent(base) && Fits(log.L, fs.sb) && FileSystem.Consistent(fs)
    && Half(log, fs, fs, {}) && Commits(log.L, log.origin, LogSpec.SpecRun(log.trace).committed, base)
    && (log.active == {} ==> log.n == 0 && fs == base)
    && Safe(log.L, log.origin, log.trace)
  }

  /** Wherever the machine stops in `all` after the first `from` steps, recovery brings about `a` or `b`. */
  ghost predicate EitherOf(L: Layout, s: LogMachine.State, all: seq<LogSpec.Event>, from: nat, a: Fs, b: Fs) {
    forall k: nat {:trigger all[..k]} :: from <= k <= |all| ==> StopsAt(L, s, all[..k], a) || StopsAt(L, s, all[..k], b)
  }

  lemma NothingCommitted(log: LogCode.Log, tickets: Tickets, es: seq<LogSpec.Event>, base: Fs)
    requires Open(log, tickets, es) && Fits(log.L, base.sb) && FileSystem.Consistent(base)
    requires Commits(log.L, log.origin, LogSpec.SpecRun(es).committed, base)
    ensures EitherOf(log.L, log.origin, log.trace, |es|, base, base)
  {
    hide LogMachine.Enabled, LogMachine.Do, LogMachine.Runs, LogMachine.Run, LogSpec.SpecRun, Commits, StopsAt,
         FileSystem.Consistent;
    var all := log.trace;
    assert all[..|es|] == es && all[..|all|] == all;
    forall k: nat | |es| <= k <= |all|
      ensures StopsAt(log.L, log.origin, all[..k], base)
    {
      RunsPrefix(log.L, log.origin, all, k);
      CommittedBefore(all, |es|, k, |all|);
      StopsThere(log.L, log.origin, all[..k], base);
    }
  }

  /** The tickets of an operation that has logged nothing. */
  ghost function Fresh(op: nat): Tickets { set j: nat | j < Common.MAXOPBLOCKS :: (op, j) }

  lemma {:induction false} FreshSize(op: nat, n: nat)
    ensures |set j: nat | j < n :: (op, j)| == n
  {
    if n > 0 {
      FreshSize(op, n - 1);
      assert (set j: nat | j < n :: (op, j)) == (set j: nat | j < n - 1 :: (op, j)) + {(op, n - 1)};
    }
  }

  lemma OneStep(es: seq<LogSpec.Event>, e: LogSpec.Event)
    ensures LogSpec.SpecRun(es + [e]) == LogSpec.SpecStep(LogSpec.SpecRun(es), e)
  {
    assert (es + [e])[..|es|] == es;
  }

  lemma SameReads(L: Layout, home: seq<LogSpec.Block>, sp: LogSpec.Spec, sp': LogSpec.Spec, fs: Fs, before: Fs,
                  todo: set<nat>)
    requires Reads(L, home, sp, fs, before, todo) && sp'.committed == sp.committed && sp'.pending == sp.pending
    ensures Reads(L, home, sp', fs, before, todo)
  {
  }

  /** On a clean log what is committed is what is read and what is on the disk. */
  lemma Clean(log: LogCode.Log, fs: Fs)
    requires Joined(log, fs)
    ensures log.active == {} && LogSpec.SpecRun(log.trace).pending == []
    ensures LogMachine.DiskOk(log.L, log.origin.disk) && Half(log, fs, fs, {})
    ensures Commits(log.L, log.origin, LogSpec.SpecRun(log.trace).committed, fs)
  {
    hide LogMachine.Enabled, LogMachine.Do, LogSpec.Apply, LogMachine.Runs, LogMachine.Run, FileSystem.Consistent,
         LogSpec.SpecRun;
    log.Facts();
    var sp := LogSpec.SpecRun(log.trace);
    assert sp.committed + [] == sp.committed;
    forall b: nat | log.L.Home(b)
      ensures LogSpec.Apply(LogProof.HomeOf(log.L, log.origin), sp.committed)[b] == Words(fs.disk[b])
    {
      log.CleanLog(b);
      assert log.disk[b] == Words(fs.disk[b]);
    }
  }

  /** What operations read, block by block. */
  lemma Reading(log: LogCode.Log, fs: Fs)
    requires log.Valid() && log.pc.Idle? && Half(log, fs, fs, {})
    ensures |log.disk| == log.L.total
    ensures forall b: nat {:trigger log.Current(b)} :: log.L.Home(b) ==> log.Current(b) == Words(fs.disk[b])
    ensures var sp := LogSpec.SpecRun(log.trace); Commits(log.L, log.origin, sp.committed + sp.pending, fs)
  {
    hide LogMachine.Recovered, LogMachine.Enabled, LogMachine.Do, LogSpec.Apply, LogMachine.Runs, LogMachine.Run,
         LogSpec.SpecRun, Words;
    log.Facts();
    var sp := LogSpec.SpecRun(log.trace);
    forall b: nat | log.L.Home(b)
      ensures log.Current(b) == Words(fs.disk[b])
    {
      assert LogSpec.Apply(LogProof.HomeOf(log.L, log.origin), sp.committed + sp.pending)[b] == Words(fs.disk[b]);
    }
  }

  lemma StaySafe(L: Layout, s: LogMachine.State, es: seq<LogSpec.Event>, all: seq<LogSpec.Event>, before: Fs, fs: Fs)
    requires Safe(L, s, es) && es <= all && EitherOf(L, s, all, |es|, before, fs)
    ensures Safe(L, s, all)
  {
    hide StopsAt;
    forall k: nat | k <= |all|
      ensures StopsWell(L, s, all[..k])
    {
      if k < |es| { assert all[..k] == es[..k]; }
    }
  }

  /** A clean log is a shared one without operations. */
  lemma JoinedShares(log: LogCode.Log, fs: Fs)
    requires Joined(log, fs) && Safe(log.L, log.origin, log.trace)
    ensures Shared(log, {}, fs, fs)
  {
    hide LogMachine.Recovered, LogMachine.Enabled, LogMachine.Do, LogMachine.Runs, LogMachine.Run,
         FileSystem.Consistent, Reads, LogSpec.SpecRun, Shows;
    Clean(log, fs);
  }

  lemma SharesJoined(log: LogCode.Log, tickets: Tickets, base: Fs, fs: Fs)
    requires Shared(log, tickets, base, fs) && log.active == {}
    ensures Joined(log, fs)
  {
    hide LogMachine.Recovered, LogMachine.Enabled, LogMachine.Do, LogMachine.Runs, LogMachine.Run,
         FileSystem.Consistent, LogSpec.SpecRun, LogSpec.Apply, Words;
    log.Facts();
    Reading(log, fs);
    forall b: nat | log.L.Home(b)
      ensures log.disk[b] == Words(fs.disk[b])
    {
      log.CleanLog(b);
      assert log.Current(b) == Words(fs.disk[b]);
    }
  }

  lemma MoreRoom(L: Layout, n: nat, active: set<nat>, tickets: Tickets, op: nat)
    requires Room(L, n, active, tickets) && op !in active
             && n + (|active| + 1) * Common.MAXOPBLOCKS <= LogMachine.LOGSIZE
    requires LogMachine.LOGSIZE < L.size || (active == {} && n == 0 && Common.MAXOPBLOCKS < L.size)
    ensures Room(L, n, active + {op}, tickets + Fresh(op))
    ensures LogAdmission.Mine(tickets + Fresh(op), op) == Fresh(op) && |Fresh(op)| == Common.MAXOPBLOCKS
  {
    LogAdmission.UsedWithinReserved(active, tickets);
    FreshSize(op, Common.MAXOPBLOCKS);
    assert tickets !! Fresh(op) && LogAdmission.Mine(tickets + Fresh(op), op) == Fresh(op);
    forall o | o in active
      ensures |LogAdmission.Mine(tickets + Fresh(op), o)| <= Common.MAXOPBLOCKS
    {
      assert LogAdmission.Mine(tickets + Fresh(op), o) == LogAdmission.Mine(tickets, o);
    }
  }

  /** begin_op, while other operations may be in progress.  On a clean log, and given a log larger
      than LOGSIZE always, those admitted can log MAXOPBLOCKS blocks each. */
  method Begin(log: LogCode.Log, ghost tickets: Tickets, ghost base: Fs, ghost fs: Fs)
    returns (admitted: bool, ghost op: nat, ghost tickets': Tickets)
    requires Shared(log, tickets, base, fs) && (log.active == {} || LogMachine.LOGSIZE < log.L.size)
    modifies log`outstanding, log`active, log`next, log`trace
    ensures old(log.trace) <= log.trace && EitherOf(log.L, log.origin, log.trace, |old(log.trace)|, base, base)
    ensures admitted <==> log.n + (old(log.outstanding) + 1) * Common.MAXOPBLOCKS <= LogMachine.LOGSIZE
    ensures !admitted ==> tickets' == tickets && log.active == old(log.active) && Shared(log, tickets, base, fs)
    ensures admitted ==>
              && op !in old(log.active) && log.active == old(log.active) + {op}
              && tickets' == tickets + Fresh(op) && |LogAdmission.Mine(tickets', op)| == Common.MAXOPBLOCKS
              && Shared(log, tickets', base, fs)
  {
    hide LogMachine.Recovered, LogMachine.Enabled, LogMachine.Do, LogMachine.Runs, LogMachine.Run,
         FileSystem.Consistent, Reads, Commits, EitherOf, Fresh, Room;
    hide LogSpec.SpecRun, LogMachine.DiskOk;
    op, tickets' := log.next, tickets;
    ghost var es, active := log.trace, log.active;
    OneStep(log.trace, LogSpec.Begin);
    SameReads(log.L, LogProof.HomeOf(log.L, log.origin), LogSpec.SpecRun(log.trace),
      LogSpec.SpecStep(LogSpec.SpecRun(log.trace), LogSpec.Begin), fs, fs, {});
    admitted := log.BeginOp();
    if admitted {
      MoreRoom(log.L, log.n, active, tickets, op);
      tickets' := tickets + Fresh(op);
    }
    NothingCommitted(log, tickets', es, base);
    StaySafe(log.L, log.origin, es, log.trace, base, base);
  }

  lemma LessRoom(L: Layout, n: nat, active: set<nat>, tickets: Tickets, op: nat) returns (tickets': Tickets)
    requires Room(L, n, active, tickets) && op in active && LogAdmission.Mine(tickets, op) != {}
    ensures !LogMachine.LogFull(L, seq(n, _ => 0)) && Room(L, n + 1, active, tickets')
    ensures |LogAdmission.Mine(tickets', op)| == |LogAdmission.Mine(tickets, op)| - 1
    ensures LogMachine.Without(tickets', op) == LogMachine.Without(tickets, op)
  {
    var t :| t in LogAdmission.Mine(tickets, op);
    tickets' := tickets - {t};
    assert LogAdmission.Mine(tickets', op) == LogAdmission.Mine(tickets, op) - {t};
    forall o | o in active && o != op
      ensures LogAdmission.Mine(tickets', o) == LogAdmission.Mine(tickets, o)
    {
    }
  }

  lemma StillRoom(L: Layout, n: nat, n': nat, active: set<nat>, tickets: Tickets)
    requires Room(L, n, active, tickets) && n' <= n
    ensures Room(L, n', active, tickets)
  {
  }

  /** log_write of one more block, which takes a ticket. */
  method LogOne(log: LogCode.Log, ghost op: nat, b: nat, data: FsDisk.Block, ghost tickets: Tickets,
                ghost es: seq<LogSpec.Event>, ghost fs: Fs, ghost before: Fs, ghost todo: set<nat>)
    returns (ghost tickets': Tickets)
    requires Open(log, tickets, es) && Fits(log.L, fs.sb) && Half(log, fs, before, todo)
    requires op in log.active && LogAdmission.Mine(tickets, op) != {}
    requires fs.sb.inodestart <= b < |fs.disk| && data == fs.disk[b]
    modifies log`cache, log`pins, log`n, log`wrote, log`trace, log`block
    ensures Open(log, tickets', es) && Half(log, fs, before, todo - {b})
    ensures |LogAdmission.Mine(tickets', op)| == |LogAdmission.Mine(tickets, op)| - 1
    ensures LogMachine.Without(tickets', op) == LogMachine.Without(tickets, op)
  {
    hide LogMachine.Recovered, LogMachine.Enabled, LogMachine.Do, LogMachine.Runs, LogMachine.Run, LogSpec.SpecRun,
         Words, LogMachine.DiskOk;
    OneStep(log.trace, LogSpec.Write(op, b, Words(data)));
    ReadsWritten(log.L, LogProof.HomeOf(log.L, log.origin), LogSpec.SpecRun(log.trace), op, b, fs, before, todo);
    hide Reads, Room;
    tickets' := LessRoom(log.L, log.n, log.active, tickets, op);
    ghost var n := log.n;
    var r := log.LogWrite(op, b, Words(data));
    StillRoom(log.L, n + 1, log.n, log.active, tickets');
  }

  lemma StartTodo(log: LogCode.Log, fs: FileSystem.FileSystem, before: Fs)
    requires LogMachine.DiskOk(log.L, log.origin.disk) && Half(log, before, before, {}) && fs.Logged()
             && fs.start == before.disk
    ensures Half(log, fs.View(), before, fs.dirty) && forall b :: b in fs.dirty ==> fs.sb.inodestart <= b < |fs.disk|
  {
    hide LogSpec.SpecRun, LogSpec.Apply, Words;
    assert |fs.View().disk| == |before.disk|;
    var sp := LogSpec.SpecRun(log.trace);
    var blocks := LogSpec.Apply(LogProof.HomeOf(log.L, log.origin), sp.committed + sp.pending);
    forall b: nat | log.L.Home(b)
      ensures blocks[b] == Words(if b in fs.dirty then before.disk[b] else fs.disk[b])
    {
      assert blocks[b] == Words(before.disk[b]);
    }
  }

  /** log_write of what one step of operation `op` has changed, in any order.  Nothing is committed. */
  method LogAll(log: LogCode.Log, fs: FileSystem.FileSystem, ghost op: nat, ghost tickets: Tickets, ghost base: Fs,
                ghost before: Fs)
    returns (ghost tickets': Tickets)
    requires Shared(log, tickets, base, before) && op in log.active && |fs.dirty| <= |LogAdmission.Mine(tickets, op)|
    requires fs.Logged() && fs.start == before.disk && fs.sb == before.sb && FileSystem.Consistent(fs.View())
    modifies log
    ensures Shared(log, tickets', base, fs.View()) && log.active == old(log.active) && log.origin == old(log.origin)
    ensures old(log.trace) <= log.trace && EitherOf(log.L, log.origin, log.trace, |old(log.trace)|, base, base)
    ensures |LogAdmission.Mine(tickets', op)| == |LogAdmission.Mine(tickets, op)| - |fs.dirty|
    ensures LogMachine.Without(tickets', op) == LogMachine.Without(tickets, op)
  {
    hide LogMachine.Recovered, LogMachine.Enabled, LogMachine.Do, LogMachine.Runs, LogMachine.Run,
         FileSystem.Consistent, Commits, EitherOf, Words;
    hide LogSpec.SpecRun, Reads, Room;
    ghost var es := log.trace;
    StartTodo(log, fs, before);
    tickets' := tickets;
    var todo := fs.dirty;
    while todo != {}
      invariant todo <= fs.dirty && log.origin == old(log.origin) && log.active == old(log.active)
      invariant Open(log, tickets', es) && Half(log, fs.View(), before, todo)
      invariant |LogAdmission.Mine(tickets', op)| == |LogAdmission.Mine(tickets, op)| - |fs.dirty| + |todo|
      invariant LogMachine.Without(tickets', op) == LogMachine.Without(tickets, op)
      modifies log
    {
      var b: nat :| b in todo;
      tickets' := LogOne(log, op, b, fs.disk[b], tickets', es, fs.View(), before, todo);
      todo := todo - {b};
    }
    NothingCommitted(log, tickets', es, base);
    StaySafe(log.L, log.origin, es, log.trace, base, base);
    SameBefore(log, fs.View(), before);
  }

  lemma SameBefore(log: LogCode.Log, fs: Fs, before: Fs)
    requires LogMachine.DiskOk(log.L, log.origin.disk) && Half(log, fs, before, {})
    ensures Half(log, fs, fs, {})
  {
    hide LogSpec.SpecRun, LogSpec.Apply, Words;
  }

  /** filewrite's transaction by an operation in progress that has logged nothing yet. */
  method WriteIn(log: LogCode.Log, fs: FileSystem.FileSystem, f: FileWrite.OpenFile, piece: seq<FsDisk.Byte>,
                 ghost op: nat, ghost tickets: Tickets, ghost base: Fs)
    returns (r: int, ghost tickets': Tickets)
    requires Shared(log, tickets, base, fs.View()) && op in log.active
             && |LogAdmission.Mine(tickets, op)| == Common.MAXOPBLOCKS
    requires f.ip.Holds(fs.View()) && |piece| <= FileWrite.CHUNK
    modifies log, fs, f.ip, f
    ensures Shared(log, tickets', base, fs.View()) && log.active == old(log.active) && log.origin == old(log.origin)
    ensures old(log.trace) <= log.trace && EitherOf(log.L, log.origin, log.trace, |old(log.trace)|, base, base)
    ensures LogMachine.Without(tickets', op) == LogMachine.Without(tickets, op)
    ensures f.ip.Holds(fs.View())
    ensures -1 <= r <= |piece| && f.off == old(f.off) + (if r > 0 then r else 0)
    ensures var file := old(FsModel.File(fs.View(), f.ip.inum));
            && (r == -1 <==> old(f.off) > |file| || old(f.off) + |piece| > FsDisk.MAXFILE * FsDisk.BSIZE)
            && FsModel.File(fs.View(), f.ip.inum)
               == if r >= 0 then FsFiles.Splice(file, old(f.off), piece[..r]) else file
    ensures 0 <= r < |piece| ==> FileSystem.Full(fs.View())
    ensures FileSystem.OthersSame(old(fs.View()), fs.View(), f.ip.inum)
  {
    hide LogMachine.Recovered, LogMachine.Enabled, LogMachine.Do, LogMachine.Runs, LogMachine.Run,
         FileSystem.Consistent, Commits, StopsAt, Words;
    hide LogSpec.SpecRun, Reads, Open, FsFiles.Splice, FsModel.File, FileSystem.Full, FileSystem.OthersSame,
         FileSystem.NowSized, FileSystem.Agrees, FileSystem.Bypasses, FileSystem.Counted;
    ghost var before := fs.View();
    ghost var copied, used;
    r, copied, used := FileWrite.Transaction(fs, f, piece, |piece|);
    if r >= 0 {
      FileWrite.AllCopied(FsModel.File(fs.View(), f.ip.inum), FsModel.File(before, f.ip.inum), old(f.off),
                          piece[..copied]);
    }
    tickets' := LogAll(log, fs, op, tickets, base, before);
  }

  /** itrunc by an operation in progress, if the blocks it logs are no more than it may still log. */
  method TruncateIn(log: LogCode.Log, fs: FileSystem.FileSystem, ip: FileSystem.Ip, ghost op: nat,
                    ghost tickets: Tickets,
                    ghost base: Fs)
    returns (ghost tickets': Tickets)
    requires Shared(log, tickets, base, fs.View()) && op in log.active && ip.Holds(fs.View())
    requires |FileSystem.MapOf(fs.sb, FsFiles.Rest(fs.View(), ip.inum, 0))| < |LogAdmission.Mine(tickets, op)|
    modifies log, fs, ip
    ensures Shared(log, tickets', base, fs.View()) && log.active == old(log.active) && log.origin == old(log.origin)
    ensures old(log.trace) <= log.trace && EitherOf(log.L, log.origin, log.trace, |old(log.trace)|, base, base)
    ensures LogMachine.Without(tickets', op) == LogMachine.Without(tickets, op)
    ensures ip.Holds(fs.View()) && FsModel.File(fs.View(), ip.inum) == []
    ensures FileSystem.OthersSame(old(fs.View()), fs.View(), ip.inum)
    ensures FileSystem.FreesOnly(old(fs.View()), fs.View(), FsFiles.Rest(old(fs.View()), ip.inum, 0))
  {
    hide LogMachine.Recovered, LogMachine.Enabled, LogMachine.Do, LogMachine.Runs, LogMachine.Run,
         FileSystem.Consistent, Commits, StopsAt, Words;
    hide LogSpec.SpecRun, Reads, Open, FsModel.File, FileSystem.OthersSame, FileSystem.FreesOnly, FsFiles.Rest,
         FileSystem.MapOf;
    ghost var before := fs.View();
    fs.Begin();
    fs.Itrunc(ip);
    tickets' := LogAll(log, fs, op, tickets, base, before);
  }

  /** A stop at any step between the clean log before and the clean log after finds one of the
      two file systems. */
  lemma BeforeOrAfter(L: Layout, s: LogMachine.State, es: seq<LogSpec.Event>, open: seq<LogSpec.Event>, op: nat,
                      all: seq<LogSpec.Event>,
                      before: Fs, fs: Fs, k: nat)
    requires LogMachine.Initial(L, s) && LogMachine.Runs(L, s, all) && es <= open && open + [LogSpec.End(op)] <= all
             && |es| <= k <= |all|
    requires Fits(L, before.sb) && Fits(L, fs.sb) && FileSystem.Consistent(before) && FileSystem.Consistent(fs)
    requires var sp := LogSpec.SpecRun(open);
             && sp.committed == LogSpec.SpecRun(es).committed
             && Commits(L, s, sp.committed, before) && Commits(L, s, sp.committed + sp.pending, fs)
             && LogSpec.SpecRun(all) == LogSpec.SpecStep(LogSpec.SpecStep(sp, LogSpec.End(op)), LogSpec.CommitHead)
    ensures StopsAt(L, s, all[..k], before) || StopsAt(L, s, all[..k], fs)
  {
    hide LogMachine.Enabled, LogMachine.Do, LogMachine.Runs, LogMachine.Run, LogSpec.SpecRun, Commits,
         FileSystem.Consistent, StopsAt;
    var m := |open| + 1;
    OneStep(open, LogSpec.End(op));
    assert all[..m] == open + [LogSpec.End(op)] && all[..|es|] == es;
    RunsPrefix(L, s, all, k);
    var sp := LogSpec.SpecRun(open);
    assert LogSpec.SpecRun(all[..k]).committed in {sp.committed, sp.committed + sp.pending} by {
      if k <= m { CommittedBefore(all, |es|, k, m); } else { CommittedOnce(all, m, k); }
    }
    if LogSpec.SpecRun(all[..k]).committed == sp.committed {
      StopsThere(L, s, all[..k], before);
    } else {
      StopsThere(L, s, all[..k], fs);
    }
  }

  lemma RoomLeft(L: Layout, n: nat, active: set<nat>, tickets: Tickets, op: nat)
    requires Room(L, n, active, tickets)
    ensures Room(L, n, active - {op}, LogMachine.Without(tickets, op))
  {
    LogAdmission.SplitOff(tickets, op);
  }

  /** end_op.  If other operations are in progress nothing is committed; otherwise all that has been
      done since `base` is, and a stop meanwhile finds one or the other. */
  method End(log: LogCode.Log, ghost op: nat, ghost tickets: Tickets, ghost base: Fs, ghost fs: Fs)
    returns (ghost base': Fs)
    requires Shared(log, tickets, base, fs) && op in log.active
    modifies log
    ensures log.active == old(log.active) - {op} && log.origin == old(log.origin) && old(log.trace) <= log.trace
    ensures base' == if log.active == {} then fs else base
    ensures Shared(log, LogMachine.Without(tickets, op), base', fs)
    ensures EitherOf(log.L, log.origin, log.trace, |old(log.trace)|, base, base')
  {
    hide LogMachine.Recovered, LogMachine.Enabled, LogMachine.Do, LogMachine.Runs, LogMachine.Run,
         FileSystem.Consistent, Commits, StopsAt, Words;
    hide LogSpec.SpecRun, Reads, Room;
    ghost var es := log.trace;
    Reading(log, fs);
    RoomLeft(log.L, log.n, log.active, tickets, op);
    OneStep(es, LogSpec.End(op));
    log.EndOp(op);
    StillRoom(log.L, old(log.n), log.n, log.active, LogMachine.Without(tickets, op));
    base' := if log.active == {} then fs else base;
    if log.active == {} {
      forall k: nat | |es| <= k <= |log.trace|
        ensures StopsAt(log.L, log.origin, log.trace[..k], base) || StopsAt(log.L, log.origin, log.trace[..k], fs)
      {
        BeforeOrAfter(log.L, log.origin, es, es, op, log.trace, base, fs, k);
      }
      Committed(log, es, op, fs);
    } else {
      StillReads(log, es, op, fs);
      NothingCommitted(log, LogMachine.Without(tickets, op), es, base);
    }
    StaySafe(log.L, log.origin, es, log.trace, base, base');
  }

  lemma Committed(log: LogCode.Log, es: seq<LogSpec.Event>, op: nat, fs: Fs)
    requires log.Valid() && log.pc.Idle? && log.n == 0 && log.active == {} && Common.MAXOPBLOCKS < log.L.size
    requires var sp := LogSpec.SpecRun(es);
             && Commits(log.L, log.origin, sp.committed + sp.pending, fs)
             && LogSpec.SpecRun(log.trace)
                == LogSpec.SpecStep(LogSpec.SpecStep(sp, LogSpec.End(op)), LogSpec.CommitHead)
    ensures Half(log, fs, fs, {}) && Commits(log.L, log.origin, LogSpec.SpecRun(log.trace).committed, fs)
  {
    hide LogMachine.Enabled, LogMachine.Do, LogMachine.Runs, LogMachine.Run, LogSpec.SpecRun, LogSpec.Apply, Words;
    var sp := LogSpec.SpecRun(log.trace);
    assert sp.committed + [] == sp.committed;
  }

  lemma StillReads(log: LogCode.Log, es: seq<LogSpec.Event>, op: nat, fs: Fs)
    requires LogMachine.DiskOk(log.L, log.origin.disk) && log.trace == es + [LogSpec.End(op)]
    requires Reads(log.L, LogProof.HomeOf(log.L, log.origin), LogSpec.SpecRun(es), fs, fs, {})
    ensures Half(log, fs, fs, {}) && LogSpec.SpecRun(log.trace).committed == LogSpec.SpecRun(es).committed
  {
    hide LogSpec.SpecRun, Reads;
    OneStep(es, LogSpec.End(op));
    SameReads(log.L, LogProof.HomeOf(log.L, log.origin), LogSpec.SpecRun(es), LogSpec.SpecRun(log.trace), fs, fs, {});
  }

  lemma EitherJoin(L: Layout, s: LogMachine.State, es: seq<LogSpec.Event>, all: seq<LogSpec.Event>, from: nat, a: Fs,
                   b: Fs)
    requires from <= |es| && es <= all && EitherOf(L, s, es, from, a, a) && EitherOf(L, s, all, |es|, a, b)
    ensures EitherOf(L, s, all, from, a, b)
  {
    hide StopsAt;
    forall k: nat | from <= k <= |all|
      ensures StopsAt(L, s, all[..k], a) || StopsAt(L, s, all[..k], b)
    {
      if k < |es| { assert all[..k] == es[..k]; }
    }
  }

  /** filewrite's transaction through the log, on a clean log: what it promises of the file, and
      whenever the machine stops before the end, the file system before or the file system after.
      The blocks are given to the log in any order. */
  method Write(log: LogCode.Log, fs: FileSystem.FileSystem, f: FileWrite.OpenFile, piece: seq<FsDisk.Byte>)
    returns (r: int)
    requires Joined(log, fs.View()) && Safe(log.L, log.origin, log.trace) && f.ip.Holds(fs.View())
             && |piece| <= FileWrite.CHUNK
    modifies log, fs, f.ip, f
    ensures Joined(log, fs.View()) && Safe(log.L, log.origin, log.trace) && f.ip.Holds(fs.View())
    ensures log.origin == old(log.origin) && old(log.trace) <= log.trace
    ensures EitherOf(log.L, log.origin, log.trace, |old(log.trace)|, old(fs.View()), fs.View())
    ensures -1 <= r <= |piece| && f.off == old(f.off) + (if r > 0 then r else 0)
    ensures var file := old(FsModel.File(fs.View(), f.ip.inum));
            && (r == -1 <==> old(f.off) > |file| || old(f.off) + |piece| > FsDisk.MAXFILE * FsDisk.BSIZE)
            && FsModel.File(fs.View(), f.ip.inum)
               == if r >= 0 then FsFiles.Splice(file, old(f.off), piece[..r]) else file
    ensures 0 <= r < |piece| ==> FileSystem.Full(fs.View())
    ensures FileSystem.OthersSame(old(fs.View()), fs.View(), f.ip.inum)
  {
    hide LogMachine.Recovered, LogMachine.Enabled, LogMachine.Do, LogMachine.Runs, LogMachine.Run,
         FileSystem.Consistent, Commits, StopsAt, Words, EitherOf;
    hide LogSpec.SpecRun, Reads, FsFiles.Splice, FsModel.File, FileSystem.Full, FileSystem.OthersSame, Shows;
    ghost var before, es := fs.View(), log.trace;
    JoinedShares(log, before);
    var admitted;
    ghost var op, tickets;
    admitted, op, tickets := Begin(log, {}, before, before);
    ghost var es1 := log.trace;
    r, tickets := WriteIn(log, fs, f, piece, op, tickets, before);
    ghost var es2 := log.trace;
    EitherJoin(log.L, log.origin, es1, es2, |es|, before, before);
    ghost var base := End(log, op, tickets, before, fs.View());
    EitherJoin(log.L, log.origin, es2, log.trace, |es|, before, fs.View());
    SharesJoined(log, LogMachine.Without(tickets, op), base, fs.View());
  }

  /** `data` has been written over file `i` from `off` on, if the file is that long, and nothing else
      has changed. */
  ghost predicate Written(fs: Fs, fs': Fs, i: nat, off: nat, data: seq<FsDisk.Byte>) {
    && i < |fs.nodes| && FileSystem.OthersSame(fs, fs', i)
    && var file := FsModel.File(fs, i);
       FsModel.File(fs', i) == if off <= |file| then FsFiles.Splice(file, off, data) else file
  }

  ghost predicate PartWritten(fs: Fs, fs': Fs, i: nat, off: nat, src: seq<FsDisk.Byte>) {
    exists done: nat {:trigger src[..done]} :: done <= |src| && Written(fs, fs', i, off, src[..done])
  }

  /** Wherever the machine stops in `all` after the first `from` steps, a prefix of `src` has been
      written. */
  ghost predicate StopsPart(L: Layout, s: LogMachine.State, all: seq<LogSpec.Event>, from: nat, fs: Fs, i: nat,
                            off: nat, src: seq<FsDisk.Byte>) {
    forall k: nat {:trigger all[..k]} :: from <= k <= |all| ==>
      exists fs' :: StopsAt(L, s, all[..k], fs') && PartWritten(fs, fs', i, off, src)
  }

  lemma WrittenNone(fs: Fs, i: nat, off: nat, src: seq<FsDisk.Byte>)
    requires i < |fs.nodes|
    ensures Written(fs, fs, i, off, src[..0])
  {
    hide FsModel.File;
    FileSystem.SameOthers(fs, i);
    FileWrite.Unwritten(FsModel.File(fs, i), off);
    assert src[..0] == [];
  }

  lemma WrittenMore(fs: Fs, fs1: Fs, fs2: Fs, i: nat, off: nat, src: seq<FsDisk.Byte>, done: nat, piece: nat, r: int)
    requires done + piece <= |src| && -1 <= r <= piece && 0 < piece && i < |fs1.nodes|
    requires Written(fs, fs1, i, off, src[..done]) && FileSystem.OthersSame(fs1, fs2, i)
    requires var file := FsModel.File(fs1, i);
             && (r == -1 <==> off + done > |file| || off + done + piece > FsDisk.MAXFILE * FsDisk.BSIZE)
             && FsModel.File(fs2, i)
                == if r >= 0 then FsFiles.Splice(file, off + done, src[done..done + piece][..r]) else file
    requires off > |FsModel.File(fs, i)| ==> done == 0
    ensures Written(fs, fs2, i, off, src[..if r >= 0 then done + r else done])
    ensures r == -1 ==> off > |FsModel.File(fs, i)| || off + |src| > FsDisk.MAXFILE * FsDisk.BSIZE
    ensures off > |FsModel.File(fs, i)| ==> r == -1
  {
    hide FsModel.File, FileSystem.OthersSame, FsFiles.Splice;
    FileSystem.OthersTrans(fs, fs1, fs2, i);
    var file := FsModel.File(fs, i);
    if off <= |file| {
      FileWrite.SpliceReads(file, off, src[..done]);
      if r >= 0 {
        FileWrite.SpliceTwice(file, off, src[..done], src[done..done + piece][..r]);
        assert src[..done] + src[done..done + piece][..r] == src[..done + r];
      }
    }
  }

  lemma PartMore(L: Layout, s: LogMachine.State, es: seq<LogSpec.Event>, all: seq<LogSpec.Event>, from: nat, a: Fs,
                 b: Fs, fs: Fs, i: nat, off: nat, src: seq<FsDisk.Byte>, m: nat, n: nat)
    requires from <= |es| && es <= all && StopsPart(L, s, es, from, fs, i, off, src)
    requires EitherOf(L, s, all, |es|, a, b) && m <= |src| && n <= |src|
    requires Written(fs, a, i, off, src[..m]) && Written(fs, b, i, off, src[..n])
    ensures StopsPart(L, s, all, from, fs, i, off, src)
  {
    hide StopsAt, Written;
    assert PartWritten(fs, a, i, off, src) && PartWritten(fs, b, i, off, src);
    forall k: nat | from <= k <= |all|
      ensures exists fs' :: StopsAt(L, s, all[..k], fs') && PartWritten(fs, fs', i, off, src)
    {
      if k < |es| {
        assert all[..k] == es[..k];
      } else {
        assert StopsAt(L, s, all[..k], a) || StopsAt(L, s, all[..k], b);
      }
    }
  }

  /** The inode case of filewrite, each of its transactions through the log: whenever the machine
      stops, recovery finds a consistent file system in which a prefix of the data has been written
      and nothing else has changed. */
  method WriteFile(log: LogCode.Log, fs: FileSystem.FileSystem, f: FileWrite.OpenFile, src: seq<FsDisk.Byte>)
    returns (ret: int)
    requires Joined(log, fs.View()) && Safe(log.L, log.origin, log.trace) && f.ip.Holds(fs.View())
    modifies log, fs, f.ip, f
    ensures Joined(log, fs.View()) && Safe(log.L, log.origin, log.trace) && f.ip.Holds(fs.View())
    ensures log.origin == old(log.origin) && old(log.trace) <= log.trace
    ensures StopsPart(log.L, log.origin, log.trace, |old(log.trace)|, old(fs.View()), f.ip.inum, old(f.off), src)
    ensures old(f.off) <= f.off <= old(f.off) + |src|
    ensures Written(old(fs.View()), fs.View(), f.ip.inum, old(f.off), src[..f.off - old(f.off)])
    ensures ret == if f.writable && f.off == old(f.off) + |src| then |src| else -1
    ensures f.writable && ret == -1 ==>
              || FileSystem.Full(fs.View()) || old(f.off) > |old(FsModel.File(fs.View(), f.ip.inum))|
              || old(f.off) + |src| > FsDisk.MAXFILE * FsDisk.BSIZE
  {
    hide FileSystem.Consistent, StopsAt, Safe, Joined, EitherOf, StopsPart, FsFiles.Splice, FsModel.File,
         FileSystem.Full, FileSystem.OthersSame, Written, LogSpec.SpecRun;
    ghost var view0, i0, off0, es := fs.View(), f.ip.inum, f.off, log.trace;
    WrittenNone(view0, i0, off0, src);
    NothingYet(log, view0, i0, off0, src);
    if !f.writable {
      return -1;
    }
    var n, i := |src|, 0;
    var ok := true;
    while i < n && ok
      invariant 0 <= i <= n && off0 <= f.off <= off0 + n && (ok ==> f.off == off0 + i) && (!ok ==> i < n)
      invariant !ok ==> f.off < off0 + n
      invariant Joined(log, fs.View()) && Safe(log.L, log.origin, log.trace) && f.ip.Holds(fs.View())
      invariant log.origin == old(log.origin) && es <= log.trace
      invariant Written(view0, fs.View(), i0, off0, src[..f.off - off0])
      invariant StopsPart(log.L, log.origin, log.trace, |es|, view0, i0, off0, src)
      invariant off0 > |FsModel.File(view0, i0)| ==> f.off == off0
      invariant !ok ==> FileSystem.Full(fs.View()) || off0 > |FsModel.File(view0, i0)|
                        || off0 + n > FsDisk.MAXFILE * FsDisk.BSIZE
      decreases n - i, ok
    {
      var n1 := if n - i > FileWrite.CHUNK then FileWrite.CHUNK else n - i;
      ghost var view, es1 := fs.View(), log.trace;
      var r := Write(log, fs, f, src[i..i + n1]);
      WrittenMore(view0, view, fs.View(), i0, off0, src, i, n1, r);
      PartMore(log.L, log.origin, es1, log.trace, |es|, view, fs.View(), view0, i0, off0, src, i, f.off - off0);
      ok := r == n1;
      if ok {
        i := i + r;
      }
    }
    ret := if i == n then n else -1;
  }

  lemma NothingYet(log: LogCode.Log, fs: Fs, i: nat, off: nat, src: seq<FsDisk.Byte>)
    requires Joined(log, fs) && Written(fs, fs, i, off, src[..0])
    ensures StopsPart(log.L, log.origin, log.trace, |log.trace|, fs, i, off, src)
  {
    hide LogMachine.Enabled, LogMachine.Do, LogMachine.Runs, LogMachine.Run, LogSpec.SpecRun, Commits, StopsAt, Written,
         FileSystem.Consistent;
    Clean(log, fs);
    var es := log.trace;
    assert es[..|es|] == es && PartWritten(fs, fs, i, off, src);
    StopsThere(log.L, log.origin, es, fs);
  }

  // ----- starting again -----

  /** initlog on the disk a stop has left: the file system is the recovered one, and so it is
      if the machine stops again before recovery is over. */
  method Boot(L: Layout, disk: seq<LogSpec.Block>, ghost fs: Fs) returns (log: LogCode.Log)
    requires Recovers(L, disk, fs)
    ensures fresh(log) && log.L == L && log.origin.disk == disk
    ensures Joined(log, fs) && Safe(log.L, log.origin, log.trace)
    ensures forall k: nat {:trigger log.trace[..k]} :: k <= |log.trace| ==>
            StopsAt(log.L, log.origin, log.trace[..k], fs)
  {
    hide LogMachine.Recovered, LogMachine.Enabled, LogMachine.Do, LogMachine.Runs, LogMachine.Run,
         FileSystem.Consistent, Commits, StopsAt, Words;
    hide LogSpec.SpecRun;
    log := new LogCode.Log(L, disk);
    ghost var s := log.origin;
    Started(L, s, fs);
    log.Recover();
    log.Facts();
    forall k: nat | k <= |log.trace|
      ensures StopsAt(log.L, log.origin, log.trace[..k], fs)
    {
      Replayed(L, s, log.trace, k, fs);
    }
    forall k: nat | k <= |log.trace|
      ensures StopsWell(log.L, log.origin, log.trace[..k])
    {
      assert StopsAt(log.L, log.origin, log.trace[..k], fs);
    }
  }

  lemma Started(L: Layout, s: LogMachine.State, fs: Fs)
    requires LogMachine.Initial(L, s) && Recovers(L, s.disk, fs)
    ensures LogSpec.SpecRun([]) == LogSpec.INITIAL && Commits(L, s, [], fs)
  {
    hide LogMachine.Recovered, LogMachine.DiskOk, FileSystem.Consistent, Words;
    assert LogSpec.Apply(LogProof.HomeOf(L, s), []) == LogProof.HomeOf(L, s);
  }

  lemma Replayed(L: Layout, s: LogMachine.State, es: seq<LogSpec.Event>, k: nat, fs: Fs)
    requires LogMachine.Initial(L, s) && LogMachine.Runs(L, s, es) && k <= |es|
             && LogSpec.SpecRun(es) == LogSpec.INITIAL
    requires Fits(L, fs.sb) && FileSystem.Consistent(fs) && Commits(L, s, [], fs)
    ensures StopsAt(L, s, es[..k], fs)
  {
    hide LogMachine.Enabled, LogMachine.Do, LogMachine.Run, Commits, FileSystem.Consistent, StopsAt,
         LogMachine.Recovered;
    RunsPrefix(L, s, es, k);
    assert es[..|es|] == es && es[..0] == [];
    CommittedBefore(es, 0, k, |es|);
    StopsThere(L, s, es[..k], fs);
  }
}
