/** log.c itself: the methods that update the log, the cache and the disk in place.  Every
    method leaves a trace of machine steps behind, so that what LogProof says of whole runs
    holds between any two block writes these methods make. */
module LogCode {
  import opened Common
  import opened LogSpec
  import opened LogMachine
  import opened LogProof

  /** What log_write does; the last two are panics. */
  datatype Outcome = Logged | TooBigTransaction | OutsideTransaction

  class Log {
    const L: Layout
    var disk: seq<Block>          // the device
    var cache: map<nat, Block>    // valid buffers
    var pins: set<nat>            // references taken by bpin
    var outstanding: nat
    var committing: bool
    var n: nat                    // lh.n
    var block: seq<nat>           // lh.block, LOGSIZE entries of which n are in use

    ghost var active: set<nat>
    ghost var wrote: set<(nat, nat)>
    ghost var next: nat
    ghost var pc: Pc
    ghost var origin: State
    ghost var trace: seq<Event>

    ghost function Now(): State
      reads this
      requires n <= |block|
    {
      State(disk, cache, pins, block[..n], active, wrote, next, pc)
    }

    ghost predicate Shape()
      reads this
    {
      && |block| == LOGSIZE && n <= LOGSIZE
      && outstanding == |active| && |disk| == L.total
      && (committing <==> pc.Entry? || pc.Logging? || pc.Installing? || pc.Leaving?)
    }

    ghost predicate Valid()
      reads this
    {
      && Shape()
      && Initial(L, origin) && Runs(L, origin, trace) && Run(L, origin, trace) == Now()
    }

    /** Power on: whatever the disk holds, provided its log header can be read. */
    constructor (L: Layout, disk: seq<Block>)
      requires DiskOk(L, disk)
      ensures Valid() && pc == Restarted && this.L == L && this.disk == origin.disk == disk && trace == []
    {
      this.L, this.disk, this.cache, this.pins := L, disk, map[], {};
      this.outstanding, this.committing, this.n := 0, false, 0;
      this.block := seq(LOGSIZE, _ => 0);
      active, wrote, next, pc := {}, {}, 0, Restarted;
      origin := State(disk, map[], {}, [], {}, {}, 0, Restarted);
      trace := [];
    }

    /** One more machine step has been taken. */
    ghost method Record(e: Event, before: State)
      requires Shape() && Initial(L, origin) && Runs(L, origin, trace) && Run(L, origin, trace) == before
      requires Enabled(L, before, e) && Do(L, before, e) == Now()
      modifies this`trace
      ensures Valid() && trace == old(trace) + [e]
      ensures SpecRun(trace) == SpecStep(old(SpecRun(trace)), e)
    {
      hide Enabled, Do, Initial;
      Extend(L, origin, trace, e);
      assert (trace + [e])[..|trace|] == trace;
      trace := trace + [e];
    }

    lemma Facts()
      requires Valid()
      ensures SpecRuns(trace) && Sane(L, Now()) && |disk| == L.total
      ensures outstanding > 0 ==> pc == Idle
      ensures Inv(L, Now()) && Refines(L, HomeOf(L, origin), Now(), SpecRun(trace))
    {
      CrashAtomicity(L, origin, trace);
    }

    /** What home block `b` will hold if the machine stops now and recovers. */
    ghost function Durable(b: nat): Block
      reads this
      requires Valid() && L.Home(b)
    {
      Facts();
      Recovered(L, disk, b)
    }

    /** What an operation reads. */
    ghost function Current(b: nat): Block
      reads this
      requires Valid() && L.Home(b)
    {
      Facts();
      Latest(L, Now(), b)
    }

    /** Both views are functions of the visible events, so internal steps keep them. */
    twostate lemma ViewsFollowTrace(b: nat)
      requires old(Valid()) && Valid() && L.Home(b) && origin == old(origin)
      ensures SpecRun(trace).committed == old(SpecRun(trace).committed) ==> Durable(b) == old(Durable(b))
      ensures SpecRun(trace).committed + SpecRun(trace).pending ==
              old(SpecRun(trace).committed + SpecRun(trace).pending)
              ==> Current(b) == old(Current(b))
    {
      CrashAtomicity(L, origin, old(trace));
      CrashAtomicity(L, origin, trace);
    }

    /** Once the log is clean the disk itself holds the durable contents. */
    lemma CleanLog(b: nat)
      requires Valid() && L.Home(b) && n == 0 && (pc.Idle? || pc.Leaving?)
      ensures |disk| == L.total && disk[b] == Durable(b) == Current(b)
    {
      Facts();
    }

    method Bread(b: nat) returns (d: Block)
      requires Valid() && b < L.total
      modifies this`cache, this`trace
      ensures Valid() && old(trace) <= trace && SpecRun(trace) == old(SpecRun(trace))
      ensures d == old(Now().Read(b)) && b in cache && cache[b] == d
      ensures forall x :: x in old(cache) ==> x in cache && cache[x] == old(cache)[x]
    {
      Facts();
      if b !in cache {
        ghost var before := Now();
        cache := cache[b := disk[b]];
        Record(Load(b), before);
      }
      d := cache[b];
    }

    /** The device takes one whole block at a time. */
    method Bwrite(b: nat, d: Block)
      requires b < |disk|
      modifies this`disk, this`cache
      ensures disk == old(disk)[b := d] && cache == old(cache)[b := d]
    {
      cache := cache[b := d];
      disk := disk[b := d];
    }

    method BeginOp() returns (admitted: bool)
      requires Valid() && !pc.Restarted? && !pc.Recovering?
      modifies this`outstanding, this`active, this`next, this`trace
      ensures Valid() && old(trace) <= trace
      // otherwise the caller sleeps on the log and tries again
      ensures admitted <==> !committing && n + (old(outstanding) + 1) * MAXOPBLOCKS <= LOGSIZE
      ensures admitted ==> active == old(active) + {old(next)} && old(next) !in old(active)
      ensures admitted ==> trace == old(trace) + [Begin] && outstanding == old(outstanding) + 1
      ensures !admitted ==> trace == old(trace)
    {
      hide Runs, Run, SpecRun, SpecRuns, Initial, DiskOk, Base, Clean, LoggingOk, InstallingOk, RecoveringOk, IdleOk;
      Facts();
      OperationsAreAtomic(trace, next);
      admitted := !committing && n + (outstanding + 1) * MAXOPBLOCKS <= LOGSIZE;
      if admitted {
        ghost var before := Now();
        outstanding := outstanding + 1;
        active, next := active + {next}, next + 1;
        Record(Begin, before);
      }
    }

    /** log_write's absorption loop: the slot of `b`, or the first unused one. */
    method FindSlot(b: nat) returns (i: nat)
      requires n <= |block|
      ensures i <= n && b !in block[..i]
      ensures i < n ==> block[i] == b
    {
      i := 0;
      while i < n && block[i] != b
        invariant i <= n && b !in block[..i]
      {
        i := i + 1;
      }
    }

    /** log_write's update of the header: an entry is added, and its buffer pinned, only if
        the block has none. */
    method Absorb(b: nat)
      requires n < LOGSIZE && |block| == LOGSIZE
      modifies this`block, this`n, this`pins
      ensures n <= LOGSIZE && |block| == LOGSIZE && n <= old(n) + 1
      ensures if b in old(block[..n]) then block[..n] == old(block[..n]) && pins == old(pins)
              else block[..n] == old(block[..n]) + [b] && pins == old(pins) + {b}
    {
      var i := FindSlot(b);
      ghost var lh := block[..n];
      block := block[i := b];
      if i == n {
        pins := pins + {b};
        n := n + 1;
        assert block[..n] == lh + [b];
      } else {
        assert lh[i] == b;
      }
    }

    /** The caller holds the buffer of home block `b`, has given it the contents `d`, and
        calls log_write. */
    method LogWrite(ghost op: nat, b: nat, d: Block) returns (r: Outcome)
      requires Valid() && L.Home(b) && (outstanding > 0 ==> op in active)
      modifies this`cache, this`pins, this`n, this`wrote, this`trace, this`block
      ensures Valid()
      ensures r == if old(LogFull(L, block[..n])) then TooBigTransaction
                   else if outstanding < 1 then OutsideTransaction
                   else Logged
      ensures if r == Logged then trace == old(trace) + [Write(op, b, d)] && n <= old(n) + 1 else trace == old(trace)
    {
      hide Runs, Run, SpecRun, SpecRuns, Refines, Initial, Inv, Enabled, Do, Sane;
      Facts();
      if n >= LOGSIZE || n + 1 >= L.size {
        return TooBigTransaction;
      }
      if outstanding < 1 {
        return OutsideTransaction;
      }
      ghost var before := Now();
      CanLogWrite(L, before, op, b, d);
      cache := cache[b := d];
      Absorb(b);
      wrote := wrote + {(op, b)};
      Record(Write(op, b, d), before);
      r := Logged;
    }

    /** Log slot and home block of an entry of the header are on the disk. */
    lemma InBounds(tail: nat)
      requires Valid() && tail < n
      ensures L.start + tail + 1 < L.total && block[tail] < L.total
    {
      Facts();
      assert Now().lh[tail] == block[tail];
    }

    /** One iteration of write_log. */
    method CopyBlock(tail: nat)
      requires Valid() && pc == Logging(tail) && tail < n
      modifies this`disk, this`cache, this`pc, this`trace
      ensures Valid() && old(trace) <= trace && SpecRun(trace) == old(SpecRun(trace))
      ensures pc == Logging(tail + 1)
    {
      hide Runs, Run, SpecRun, SpecRuns, Refines, Initial, Inv, Enabled, Do;
      InBounds(tail);
      var to := Bread(L.start + tail + 1);
      var from := Bread(block[tail]);
      Facts();
      ghost var before := Now();
      assert before.lh[tail] == block[tail];
      CanCopy(L, before, tail);
      Bwrite(L.start + tail + 1, from);
      pc := Logging(tail + 1);
      Record(CopyToLog, before);
    }

    method WriteLog()
      requires Valid() && pc == Logging(0)
      modifies this`disk, this`cache, this`pc, this`trace
      ensures Valid() && old(trace) <= trace && SpecRun(trace) == old(SpecRun(trace))
      ensures pc == Logging(n)
    {
      hide *;
      var tail := 0;
      while tail < n
        invariant 0 <= tail <= n && Valid() && pc == Logging(tail)
        invariant old(trace) <= trace && SpecRun(trace) == old(SpecRun(trace))
      {
        CopyBlock(tail);
        tail := tail + 1;
      }
    }

    /** The header block as write_head fills it in. */
    method FillHead(buf: Block) returns (d: Block)
      requires n <= |block| == LOGSIZE
      ensures d == PutHead(buf, block[..n])
    {
      d := buf[0 := n];
      var i := 0;
      while i < n
        invariant i <= n && d == [n] + block[..i] + buf[1 + i..]
      {
        d := d[1 + i := block[i]];
        i := i + 1;
      }
    }

    /** write_head.  With `clear`, lh.n becomes 0 first; that is done here, once the header
        block is cached, since nothing looks at lh.n during a commit or a recovery. */
    method WriteHead(clear: bool)
      requires Valid()
      requires if clear then pc == Installing(n) || pc == Recovering(n) else pc == Logging(n)
      modifies this`disk, this`cache, this`n, this`pc, this`trace
      ensures Valid() && old(trace) <= trace
      ensures SpecRun(trace) == if clear then old(SpecRun(trace)) else SpecStep(old(SpecRun(trace)), CommitHead)
      ensures n == if clear then 0 else old(n)
      ensures pc == if !clear then Installing(0) else if old(pc).Installing? then Leaving else Idle
    {
      hide Runs, Run, SpecRun, SpecRuns, Refines, Initial, Inv, Enabled, Do;
      Facts();
      var buf := Bread(L.start);
      PutHeader(buf, clear);
    }

    method PutHeader(buf: Block, clear: bool)
      requires Valid() && L.start < |disk| && buf == Now().Read(L.start)
      requires if clear then pc == Installing(n) || pc == Recovering(n) else pc == Logging(n)
      modifies this`disk, this`cache, this`n, this`pc, this`trace
      ensures Valid() && trace == old(trace) + [if clear then ClearHead else CommitHead]
      ensures SpecRun(trace) == if clear then old(SpecRun(trace)) else SpecStep(old(SpecRun(trace)), CommitHead)
      ensures n == if clear then 0 else old(n)
      ensures pc == if !clear then Installing(0) else if old(pc).Installing? then Leaving else Idle
    {
      hide Runs, Run, SpecRun, SpecRuns, Refines, Initial, Inv, PutHead, Enabled, Do;
      Facts();
      ghost var before := Now();
      CanWriteHead(L, before);
      if clear {
        n := 0;
      }
      var d := FillHead(buf);
      Bwrite(L.start, d);
      pc := if !clear then Installing(0) else if pc.Installing? then Leaving else Idle;
      assert clear ==> block[..n] == [];
      Record(if clear then ClearHead else CommitHead, before);
    }

    /** One iteration of install_trans: both blocks through the cache, then the copy. */
    method InstallBlock(tail: nat, recovering: bool)
      requires Valid() && tail < n && pc == if recovering then Recovering(tail) else Installing(tail)
      modifies this`disk, this`cache, this`pins, this`pc, this`trace
      ensures Valid() && old(trace) <= trace && SpecRun(trace) == old(SpecRun(trace))
      ensures pc == if recovering then Recovering(tail + 1) else Installing(tail + 1)
    {
      hide Runs, Run, SpecRun, SpecRuns, Refines, Initial, Inv, Enabled, Do;
      InBounds(tail);
      var lbuf := Bread(L.start + tail + 1);
      var dbuf := Bread(block[tail]);
      PutHome(tail, lbuf, recovering);
    }

    method PutHome(tail: nat, lbuf: Block, recovering: bool)
      requires Valid() && tail < n && pc == if recovering then Recovering(tail) else Installing(tail)
      requires L.start + 1 + tail < L.total && lbuf == Now().Read(L.start + 1 + tail)
      modifies this`disk, this`cache, this`pins, this`pc, this`trace
      ensures Valid() && trace == old(trace) + [if recovering then Replay else Install]
      ensures SpecRun(trace) == old(SpecRun(trace))
      ensures pc == if recovering then Recovering(tail + 1) else Installing(tail + 1)
    {
      hide Runs, Run, SpecRun, SpecRuns, Refines, Initial, Inv, Enabled, Do;
      Facts();
      ghost var before := Now();
      assert before.lh[tail] == block[tail];
      ghost var e := if recovering then Replay else Install;
      if recovering { CanReplay(L, before, tail); } else { CanInstall(L, before, tail); }
      Bwrite(block[tail], lbuf);
      if !recovering {
        pins := pins - {block[tail]};   // bunpin
      }
      pc := if recovering then Recovering(tail + 1) else Installing(tail + 1);
      Record(e, before);
    }

    method InstallTrans(recovering: bool)
      requires Valid() && pc == if recovering then Recovering(0) else Installing(0)
      modifies this`disk, this`cache, this`pins, this`pc, this`trace
      ensures Valid() && old(trace) <= trace && SpecRun(trace) == old(SpecRun(trace))
      ensures pc == if recovering then Recovering(n) else Installing(n)
    {
      hide *;
      var tail := 0;
      while tail < n
        invariant 0 <= tail <= n && Valid()
        invariant pc == if recovering then Recovering(tail) else Installing(tail)
        invariant old(trace) <= trace && SpecRun(trace) == old(SpecRun(trace))
      {
        InstallBlock(tail, recovering);
        tail := tail + 1;
      }
    }

    method LoadHead(buf: Block)
      requires |block| == LOGSIZE && HeadOk(buf)
      modifies this`n, this`block
      ensures n <= LOGSIZE && |block| == LOGSIZE && block[..n] == HeadBlocks(buf)
    {
      n := buf[0];
      var i := 0;
      while i < n
        invariant i <= n == buf[0] && |block| == LOGSIZE && block[..i] == buf[1..1 + i]
      {
        block := block[i := buf[1 + i]];
        assert buf[1..1 + i + 1] == buf[1..1 + i] + [buf[1 + i]];
        i := i + 1;
      }
    }

    method ReadHead()
      requires Valid() && pc == Restarted
      modifies this`cache, this`n, this`pc, this`trace, this`block
      ensures Valid() && old(trace) <= trace && SpecRun(trace) == old(SpecRun(trace)) && pc == Recovering(0)
    {
      hide Runs, Run, SpecRun, SpecRuns, Initial, HeadBlocks, HeadOk, Recovered;
      Facts();
      var buf := Bread(L.start);
      Facts();
      ghost var before := Now();
      LoadHead(buf);
      pc := Recovering(0);
      Record(Event.ReadHead, before);
    }

    /** recover_from_log.  Cut short anywhere, it can be run again from a Restarted state
        with the same outcome. */
    method Recover()
      requires Valid() && pc == Restarted
      modifies this
      ensures Valid() && old(trace) <= trace && SpecRun(trace) == old(SpecRun(trace))
      ensures pc == Idle && n == 0 && origin == old(origin)
      ensures |disk| == L.total
      ensures forall b: nat :: L.Home(b) ==> disk[b] == old(Durable(b))
    {
      hide Runs, Run, SpecRun, SpecRuns, Refines, Initial, Inv, Sane, Enabled, Do, Recovered;
      ReadHead();
      InstallTrans(true);
      WriteHead(true);
      assert |disk| == L.total by { Facts(); }
      forall b: nat | L.Home(b)
        ensures disk[b] == old(Durable(b))
      {
        ViewsFollowTrace(b);
        CleanLog(b);
      }
    }

    method EnterCommit()
      requires Valid() && pc == Entry
      modifies this`pc, this`trace
      ensures Valid() && old(trace) <= trace && SpecRun(trace) == old(SpecRun(trace))
      ensures if n > 0 then pc == Logging(0) else pc == Leaving && SpecRun(trace).pending == []
    {
      hide Runs, Run, SpecRun, SpecRuns, Initial, Inv;
      Facts();
      ghost var before := Now();
      pc := if n > 0 then Logging(0) else Leaving;
      Record(Event.EnterCommit, before);
    }

    method Commit()
      requires Valid() && pc == Entry
      modifies this`disk, this`cache, this`pins, this`n, this`pc, this`trace
      ensures Valid() && old(trace) <= trace && pc == Leaving && n == 0
      ensures SpecRun(trace) == SpecStep(old(SpecRun(trace)), CommitHead)
    {
      hide Runs, Run, SpecRun, SpecRuns, Initial, Inv;
      EnterCommit();
      if n > 0 {
        WriteLog();
        WriteHead(false);   // the commit point
        InstallTrans(false);
        WriteHead(true);
      }
    }

    method Reopen()
      requires Valid() && pc == Leaving
      modifies this`committing, this`pc, this`trace
      ensures Valid() && old(trace) <= trace && SpecRun(trace) == old(SpecRun(trace)) && pc == Idle && !committing
    {
      hide Runs, Run, SpecRun, SpecRuns, Refines, Initial, Inv, Recovered;
      Facts();
      ghost var before := Now();
      committing := false;
      pc := Idle;
      Record(Event.Reopen, before);
    }

    /** end_op up to the point where it calls commit(). */
    method LeaveOp(ghost op: nat)
      requires Valid() && op in active
      modifies this`outstanding, this`committing, this`active, this`wrote, this`pc, this`trace
      ensures Valid() && trace == old(trace) + [End(op)] && active == old(active) - {op}
      ensures SpecRun(trace) == SpecStep(old(SpecRun(trace)), End(op))
      ensures outstanding == old(outstanding) - 1
      ensures pc == if outstanding == 0 then Entry else Idle
    {
      hide Runs, Run, SpecRun, SpecRuns, Refines, Initial, Inv, Enabled, Do, Sane;
      Facts();
      ghost var before := Now();
      CanEnd(L, before, op);
      outstanding := outstanding - 1;
      active, wrote := active - {op}, Without(wrote, op);
      if outstanding == 0 {
        committing := true;
        pc := Entry;
      }
      Record(End(op), before);
    }

    /** end_op.  The last operation commits the whole group. */
    method EndOp(ghost op: nat)
      requires Valid() && op in active
      modifies this
      ensures Valid() && old(trace) <= trace && origin == old(origin) && active == old(active) - {op}
      ensures outstanding == old(outstanding) - 1
      ensures outstanding > 0 ==> trace == old(trace) + [End(op)] && disk == old(disk) && n == old(n) && pc == Idle
      ensures outstanding == 0 ==> pc == Idle && n == 0 && !committing && old(trace) + [End(op)] <= trace
      ensures outstanding == 0 ==> SpecRun(trace) == SpecStep(SpecStep(old(SpecRun(trace)), End(op)), CommitHead)
      ensures outstanding == 0 ==> forall b: nat :: L.Home(b) ==> disk[b] == Durable(b) == old(Current(b))
    {
      hide Runs, Run, SpecRun, SpecRuns, Refines, Initial, Inv, Enabled, Do, Sane, Recovered, Latest;
      LeaveOp(op);
      if outstanding == 0 {
        Commit();
        Reopen();
        forall b: nat | L.Home(b)
          ensures disk[b] == Durable(b) == old(Current(b))
        {
          ViewsFollowTrace(b);
          CleanLog(b);
        }
      }
    }

    method PowerOff()
      requires Valid()
      modifies this
      ensures Valid() && trace == old(trace) + [Event.Crash] && origin == old(origin)
      ensures SpecRun(trace) == SpecStep(old(SpecRun(trace)), Event.Crash)
      ensures pc == Restarted && disk == old(disk)
    {
      hide Runs, Run, SpecRun, SpecRuns, Initial, Inv, Recovered, Refines, Enabled, Do, Sane;
      Facts();
      ghost var before := Now();
      CanCrash(L, before);
      cache, pins, n, outstanding, committing := map[], {}, 0, 0, false;
      active, wrote, pc := {}, {}, Restarted;
      Record(Event.Crash, before);
    }

    /** The machine stops; memory is lost. */
    method Crash()
      requires Valid()
      modifies this
      ensures Valid() && trace == old(trace) + [Event.Crash] && origin == old(origin)
      ensures pc == Restarted && disk == old(disk)
      ensures forall b: nat :: L.Home(b) ==> Durable(b) == old(Durable(b))
    {
      hide Runs, Run, SpecRun, SpecRuns, Initial, Inv, Recovered, Refines, Enabled, Do, Sane;
      PowerOff();
      forall b: nat | L.Home(b)
        ensures Durable(b) == old(Durable(b))
      {
        ViewsFollowTrace(b);
      }
    }
  }
}
