/** Every step of the log machine keeps its invariant and refines the transactional store
    of LogSpec. */
module LogProof {
  import opened Common
  import opened LogSpec
  import opened LogMachine

  // ----- what single block writes do to the recovered contents -----

  /** The commit point: one header write replaces the recovered contents of exactly the
      listed blocks by their copies in the log. */
  lemma HeadWrite(L: Layout, disk: seq<Block>, b: Block, lh: seq<nat>)
    requires DiskOk(L, disk) && ListOk(L, lh)
    ensures var disk' := disk[L.start := PutHead(b, lh)];
            && DiskOk(L, disk') && HeadBlocks(disk'[L.start]) == lh
            && forall h: nat {:trigger Recovered(L, disk', h)} :: L.Home(h) ==>
                 Recovered(L, disk', h) == if h in lh then disk[L.start + 1 + IndexOf(lh, h)] else disk[h]
  {
  }

  /** Installing one block, in commit or in recovery, changes nothing a crash would leave. */
  lemma InstallWrite(L: Layout, disk: seq<Block>, t: nat)
    requires DiskOk(L, disk) && t < |HeadBlocks(disk[L.start])|
    ensures var head := HeadBlocks(disk[L.start]);
            var disk' := disk[head[t] := disk[L.start + 1 + t]];
            && DiskOk(L, disk') && HeadBlocks(disk'[L.start]) == head
            && forall h: nat {:trigger Recovered(L, disk', h)} :: L.Home(h) ==>
                 Recovered(L, disk', h) == Recovered(L, disk, h)
  {
    var head := HeadBlocks(disk[L.start]);
    assert L.Home(head[t]);
  }

  // ----- the invariant -----

  lemma WriteKeeps(L: Layout, s: State, op: nat, b: nat, d: Block)
    requires Base(L, s) && IdleOk(L, s) && op in s.active && L.Home(b) && !LogFull(L, s.lh)
    ensures Base(L, LogWrite(s, op, b, d)) && IdleOk(L, LogWrite(s, op, b, d))
  {
    hide HeadBlocks, HeadOk, PutHead, Recovered, IndexOf;
    var s' := LogWrite(s, op, b, d);
    assert forall i :: 0 <= i < |s.lh| ==> s'.lh[i] == s.lh[i];
    assert b in s'.lh;
  }

  lemma HomesOf(L: Layout, lh: seq<nat>)
    requires ListOk(L, lh)
    ensures |lh| <= LOGSIZE && |lh| < L.size && Distinct(lh) && forall i :: 0 <= i < |lh| ==> L.Home(lh[i])
  {
  }

  lemma CopyKeeps(L: Layout, s: State, t: nat)
    requires Base(L, s) && LoggingOk(L, s, t) && t < |s.lh|
    ensures Base(L, CopyOne(L, s, t)) && LoggingOk(L, CopyOne(L, s, t), t + 1)
  {
    hide HeadBlocks, HeadOk, PutHead, Recovered, IndexOf, ListOk;
    InvIsSane(L, s);
    assert forall i :: 0 <= i < |s.lh| ==> L.Home(s.lh[i]) by { assert ListOk(L, s.lh); HomesOf(L, s.lh); }
    var s' := CopyOne(L, s, t);
    assert forall i :: 0 <= i < |s.lh| ==> L.Home(s.lh[i]) && s.cache[s.lh[i]] == s'.cache[s.lh[i]];
    assert s'.disk[L.start] == s.disk[L.start];
  }

  lemma CommitKeeps(L: Layout, s: State)
    requires Base(L, s) && LoggingOk(L, s, |s.lh|)
    ensures var s' := CommitOne(L, s);
            Base(L, s') && InstallingOk(L, s', 0)
  {
    hide HeadBlocks, HeadOk, PutHead, Recovered, IndexOf;
    HeadWrite(L, s.disk, s.Read(L.start), s.lh);
  }

  /** The block of the log read back by install_trans is never a stale cached copy. */
  lemma InstallReads(L: Layout, s: State, t: nat)
    requires Base(L, s) && t < |s.lh| && (InstallingOk(L, s, t) || RecoveringOk(L, s, t))
    ensures s.Read(L.start + 1 + t) == s.disk[L.start + 1 + t]
  {
  }

  lemma InstallBase(L: Layout, s: State, t: nat)
    requires Base(L, s) && InstallingOk(L, s, t) && t < |s.lh|
    ensures Base(L, InstallOne(L, s, t)) && HeadBlocks(InstallOne(L, s, t).disk[L.start]) == s.lh
  {
    hide HeadOk, HeadBlocks, Recovered, IndexOf;
    InstallReads(L, s, t);
    InstallWrite(L, s.disk, t);
  }

  lemma InstallKeeps(L: Layout, s: State, t: nat)
    requires Base(L, s) && InstallingOk(L, s, t) && t < |s.lh|
    ensures Base(L, InstallOne(L, s, t)) && InstallingOk(L, InstallOne(L, s, t), t + 1)
  {
    hide HeadOk, HeadBlocks, Recovered, IndexOf, Clean;
    InstallBase(L, s, t);
    InstallReads(L, s, t);
    assert forall i :: 0 <= i < |s.lh| ==> L.Home(s.lh[i]);
  }

  lemma ReplayKeeps(L: Layout, s: State, t: nat)
    requires Base(L, s) && RecoveringOk(L, s, t) && t < |s.lh|
    ensures var s' := ReplayOne(L, s, t);
            Base(L, s') && RecoveringOk(L, s', t + 1)
  {
    hide HeadBlocks, HeadOk, PutHead, Recovered, IndexOf;
    InstallReads(L, s, t);
    InstallWrite(L, s.disk, t);
  }

  lemma ClearKeeps(L: Layout, s: State)
    requires Base(L, s) && (InstallingOk(L, s, |s.lh|) || RecoveringOk(L, s, |s.lh|))
    ensures Base(L, ClearOne(L, s)) && LoggingOk(L, ClearOne(L, s), 0) && IdleOk(L, ClearOne(L, s))
  {
    hide HeadBlocks, HeadOk, PutHead, Recovered, IndexOf;
    HeadWrite(L, s.disk, s.Read(L.start), []);
  }

  lemma InvStep(L: Layout, s: State, e: Event)
    requires Inv(L, s) && Enabled(L, s, e)
    ensures Inv(L, Do(L, s, e))
  {
    hide HeadBlocks, HeadOk, PutHead, Recovered, IndexOf, ListOk, Pinned, Dirty, Clean, DiskOk;
    match e
    case Write(op, b, d) => WriteKeeps(L, s, op, b, d);
    case CopyToLog => CopyKeeps(L, s, s.pc.tail);
    case CommitHead => CommitKeeps(L, s);
    case Install => InstallKeeps(L, s, s.pc.tail);
    case Replay => ReplayKeeps(L, s, s.pc.tail);
    case ClearHead => ClearKeeps(L, s);
    case Load(b) => LoadKeeps(L, s, b);
    case Evict(b) => EvictKeeps(L, s, b);
    case _ => InvControl(L, s, e);
  }

  lemma InvControl(L: Layout, s: State, e: Event)
    requires Inv(L, s) && Enabled(L, s, e)
    requires e.Begin? || e.End? || e.EnterCommit? || e.Reopen? || e.Crash? || e.ReadHead?
    ensures Inv(L, Do(L, s, e))
  {
    hide PutHead, Recovered, IndexOf;
    if e.End? && s.active - {e.op} == {} {
      assert forall p :: p in s.wrote && p.0 != e.op ==> p.0 in s.active - {e.op};
    }
  }

  lemma LoadKeeps(L: Layout, s: State, b: nat)
    requires Inv(L, s) && Enabled(L, s, Load(b))
    ensures Inv(L, Do(L, s, Load(b)))
  {
    hide PutHead, Recovered, IndexOf, HeadBlocks, HeadOk, ListOk, DiskOk, Clean;
    var s' := s.(cache := s.cache[b := s.disk[b]]);
    assert Clean(s') by { LoadClean(L, s, b); }
  }

  lemma LoadClean(L: Layout, s: State, b: nat)
    requires Base(L, s) && b < L.total && b !in s.cache
    ensures b < |s.disk| && Clean(s.(cache := s.cache[b := s.disk[b]]))
  {
    hide HeadBlocks, HeadOk, ListOk;
  }

  lemma EvictKeeps(L: Layout, s: State, b: nat)
    requires Inv(L, s) && Enabled(L, s, Evict(b))
    ensures Inv(L, Do(L, s, Evict(b)))
  {
    hide PutHead, Recovered, IndexOf, HeadBlocks, HeadOk, ListOk, DiskOk, Clean;
    var s' := s.(cache := s.cache - {b});
    assert Clean(s') by { EvictClean(L, s, b); }
    assert forall i :: 0 <= i < |s.lh| && s.lh[i] in s.pins ==> s.lh[i] != b;
  }

  lemma EvictClean(L: Layout, s: State, b: nat)
    requires Base(L, s)
    ensures Clean(s.(cache := s.cache - {b}))
  {
    hide HeadBlocks, HeadOk, ListOk;
  }

  // ----- refinement -----

  lemma ApplyOne(home: seq<Block>, us: seq<Update>, u: Update, b: nat)
    requires b < |home|
    ensures Apply(home, us + [u])[b] == if b == u.block then u.data else Apply(home, us)[b]
  {
    assert (us + [u])[..|us|] == us;
  }

  lemma RefineWrite(L: Layout, home: seq<Block>, s: State, sp: Spec, e: Event)
    requires Inv(L, s) && Refines(L, home, s, sp) && Enabled(L, s, e) && e.Write?
    ensures Inv(L, Do(L, s, e)) && Refines(L, home, Do(L, s, e), SpecStep(sp, e))
  {
    hide HeadBlocks, HeadOk, PutHead, Recovered, IndexOf, Pinned, Clean, ListOk, DiskOk, Dirty, Sane, Apply, IdleOk;
    InvStep(L, s, e);
    var s' := LogWrite(s, e.op, e.block, e.data);
    var us := sp.committed + sp.pending;
    var u := Update(e.op, e.block, e.data);
    assert sp.committed + (sp.pending + [u]) == us + [u];
    forall b: nat | L.Home(b)
      ensures Latest(L, s', b) == Apply(home, us + [u])[b]
    {
      ApplyOne(home, us, u, b);
      assert Latest(L, s, b) == Apply(home, us)[b];
    }
  }

  /** Neither what a crash would leave nor what operations read has changed. */
  ghost predicate SameViews(L: Layout, s: State, s': State)
    requires DiskOk(L, s.disk) && DiskOk(L, s'.disk)
  {
    forall b: nat :: L.Home(b) ==>
      Recovered(L, s'.disk, b) == Recovered(L, s.disk, b) && s'.Read(b) == s.Read(b)
  }

  lemma CopyInvisible(L: Layout, s: State, t: nat)
    requires Base(L, s) && LoggingOk(L, s, t) && t < |s.lh|
    ensures Base(L, CopyOne(L, s, t)) && SameViews(L, s, CopyOne(L, s, t))
  {
    hide HeadOk, PutHead, IndexOf;
    CopyKeeps(L, s, t);
  }

  lemma InstallInvisible(L: Layout, s: State, t: nat)
    requires Base(L, s) && InstallingOk(L, s, t) && t < |s.lh|
    ensures var s' := InstallOne(L, s, t);
            Base(L, s') && SameViews(L, s, s')
  {
    hide HeadBlocks, HeadOk, PutHead, Recovered, IndexOf;
    InstallKeeps(L, s, t);
    InstallReads(L, s, t);
    InstallWrite(L, s.disk, t);
  }

  lemma ReplayInvisible(L: Layout, s: State, t: nat, b: nat)
    requires Base(L, s) && RecoveringOk(L, s, t) && t < |s.lh| && L.Home(b)
    ensures var s' := ReplayOne(L, s, t);
            Base(L, s') && Recovered(L, s'.disk, b) == Recovered(L, s.disk, b)
  {
    hide HeadBlocks, HeadOk, PutHead, Recovered, IndexOf;
    ReplayKeeps(L, s, t);
    InstallReads(L, s, t);
    InstallWrite(L, s.disk, t);
  }

  lemma ClearInvisible(L: Layout, s: State, b: nat)
    requires Base(L, s) && (InstallingOk(L, s, |s.lh|) || RecoveringOk(L, s, |s.lh|)) && L.Home(b)
    ensures Base(L, ClearOne(L, s))
    ensures Recovered(L, ClearOne(L, s).disk, b) == Recovered(L, s.disk, b) == s.Read(b) == ClearOne(L, s).Read(b)
  {
    hide HeadOk, HeadBlocks, PutHead;
    ClearKeeps(L, s);
    HeadWrite(L, s.disk, s.Read(L.start), []);
  }

  /** Once everything is copied, what operations read is in the log or at home on the disk. */
  lemma ReadIsOnDisk(L: Layout, s: State, b: nat)
    requires Base(L, s) && LoggingOk(L, s, |s.lh|) && L.Home(b)
    ensures s.Read(b) == if b in s.lh then s.disk[L.start + 1 + IndexOf(s.lh, b)] else s.disk[b]
  {
    hide HeadBlocks, HeadOk, PutHead, Recovered, ListOk;
    if b in s.lh {
      assert s.lh[IndexOf(s.lh, b)] == b;
    }
  }

  /** The commit point turns what operations read into what a crash would leave. */
  lemma CommitVisible(L: Layout, s: State, b: nat)
    requires Base(L, s) && LoggingOk(L, s, |s.lh|) && L.Home(b)
    ensures var s' := CommitOne(L, s);
            Base(L, s') && Recovered(L, s'.disk, b) == s.Read(b) == s'.Read(b)
  {
    hide HeadBlocks, HeadOk, PutHead, Recovered, IndexOf, Pinned, Dirty, Clean, ListOk;
    CommitKeeps(L, s);
    ReadIsOnDisk(L, s, b);
    HeadWrite(L, s.disk, s.Read(L.start), s.lh);
  }

  lemma RefineCommit(L: Layout, home: seq<Block>, s: State, sp: Spec)
    requires Inv(L, s) && Refines(L, home, s, sp) && Enabled(L, s, CommitHead)
    ensures Inv(L, CommitOne(L, s)) && Refines(L, home, CommitOne(L, s), SpecStep(sp, CommitHead))
  {
    hide HeadBlocks, HeadOk, PutHead, Recovered, IndexOf, Pinned, Clean, ListOk, DiskOk;
    CommitKeeps(L, s);
    forall b: nat | L.Home(b)
      ensures Recovered(L, CommitOne(L, s).disk, b) == Latest(L, s, b) == CommitOne(L, s).Read(b)
    {
      CommitVisible(L, s, b);
    }
    assert sp.committed + sp.pending + [] == sp.committed + sp.pending;
  }

  lemma RefineInternal(L: Layout, home: seq<Block>, s: State, sp: Spec, e: Event)
    requires Inv(L, s) && Refines(L, home, s, sp) && Enabled(L, s, e)
    requires e.CopyToLog? || e.Install? || e.Replay? || e.ClearHead?
    requires Inv(L, Do(L, s, e))
    ensures Refines(L, home, Do(L, s, e), sp)
  {
    hide HeadBlocks, HeadOk, PutHead, Recovered, IndexOf, Pinned, Clean, ListOk, DiskOk, Sane;
    match e
    case CopyToLog => CopyInvisible(L, s, s.pc.tail);
    case Install => InstallInvisible(L, s, s.pc.tail);
    case Replay => forall b: nat | L.Home(b) { ReplayInvisible(L, s, s.pc.tail, b); }
    case ClearHead => forall b: nat | L.Home(b) { ClearInvisible(L, s, b); }
  }

  lemma RefineControl(L: Layout, home: seq<Block>, s: State, sp: Spec, e: Event)
    requires Inv(L, s) && Refines(L, home, s, sp) && Enabled(L, s, e)
    requires e.Load? || e.Evict? || e.Begin? || e.End? || e.EnterCommit? || e.Reopen?
    requires Inv(L, Do(L, s, e))
    ensures Refines(L, home, Do(L, s, e), SpecStep(sp, e))
  {
    hide HeadOk, PutHead, IndexOf, Pinned, ListOk;
  }

  lemma RefineRestart(L: Layout, home: seq<Block>, s: State, sp: Spec, e: Event)
    requires Inv(L, s) && Refines(L, home, s, sp) && Enabled(L, s, e) && (e.Crash? || e.ReadHead?)
    requires Inv(L, Do(L, s, e))
    ensures Refines(L, home, Do(L, s, e), SpecStep(sp, e))
  {
    hide HeadOk, PutHead, IndexOf, Pinned, ListOk;
    assert sp.committed + [] == sp.committed;
  }

  lemma RefineStep(L: Layout, home: seq<Block>, s: State, sp: Spec, e: Event)
    requires Inv(L, s) && Refines(L, home, s, sp) && Enabled(L, s, e)
    ensures Allowed(sp, e)
    ensures Inv(L, Do(L, s, e)) && Refines(L, home, Do(L, s, e), SpecStep(sp, e))
  {
    hide HeadBlocks, HeadOk, PutHead, Recovered, IndexOf, Pinned, Clean, ListOk, DiskOk, Sane, Dirty;
    InvStep(L, s, e);
    match e
    case Write(_, _, _) => RefineWrite(L, home, s, sp, e);
    case CommitHead => RefineCommit(L, home, s, sp);
    case CopyToLog | Install | Replay | ClearHead => RefineInternal(L, home, s, sp, e);
    case Crash | ReadHead => RefineRestart(L, home, s, sp, e);
    case _ => RefineControl(L, home, s, sp, e);
  }

  // ----- the steps that a commit or a recovery takes are always possible -----

  lemma InvIsSane(L: Layout, s: State)
    requires Base(L, s)
    ensures Sane(L, s)
  {
    hide HeadBlocks, HeadOk, Recovered, Clean;
    assert forall i :: 0 <= i < |s.lh| ==> L.Home(s.lh[i]);
  }

  lemma CanCopy(L: Layout, s: State, t: nat)
    requires Inv(L, s) && s.pc == Logging(t) && t < |s.lh|
    ensures Enabled(L, s, CopyToLog) && Do(L, s, CopyToLog) == CopyOne(L, s, t)
  {
    hide HeadBlocks, HeadOk, Recovered, Clean, DiskOk, ListOk, Dirty, Sane;
    InvIsSane(L, s);
  }

  lemma CanInstall(L: Layout, s: State, t: nat)
    requires Inv(L, s) && s.pc == Installing(t) && t < |s.lh|
    ensures Enabled(L, s, Install) && Do(L, s, Install) == InstallOne(L, s, t)
  {
    hide HeadBlocks, HeadOk, Recovered, Clean, DiskOk, ListOk, Sane;
    InvIsSane(L, s);
  }

  lemma CanReplay(L: Layout, s: State, t: nat)
    requires Inv(L, s) && s.pc == Recovering(t) && t < |s.lh|
    ensures Enabled(L, s, Replay) && Do(L, s, Replay) == ReplayOne(L, s, t)
  {
    hide HeadBlocks, HeadOk, Recovered, Clean, DiskOk, ListOk, Sane;
    InvIsSane(L, s);
  }

  lemma CanWriteHead(L: Layout, s: State)
    requires Inv(L, s)
    ensures s.pc == Logging(|s.lh|) ==> Enabled(L, s, CommitHead) && Do(L, s, CommitHead) == CommitOne(L, s)
    ensures s.pc == Installing(|s.lh|) || s.pc == Recovering(|s.lh|) ==>
              Enabled(L, s, ClearHead) && Do(L, s, ClearHead) == ClearOne(L, s)
  {
    hide HeadBlocks, HeadOk, Recovered, Clean, DiskOk, ListOk, Dirty, Pinned, Sane;
    InvIsSane(L, s);
  }

  lemma CanLogWrite(L: Layout, s: State, op: nat, b: nat, d: Block)
    requires Inv(L, s) && s.pc == Idle && op in s.active && L.Home(b) && !LogFull(L, s.lh)
    ensures Enabled(L, s, Write(op, b, d)) && Do(L, s, Write(op, b, d)) == LogWrite(s, op, b, d)
  {
    hide HeadBlocks, HeadOk, Recovered, Clean, DiskOk, ListOk, Dirty, Pinned, Sane;
    InvIsSane(L, s);
  }

  lemma CanEnd(L: Layout, s: State, op: nat)
    requires Inv(L, s) && op in s.active
    ensures s.pc == Idle && Enabled(L, s, End(op)) && Do(L, s, End(op)) == EndOp(s, op)
  {
    hide HeadBlocks, HeadOk, Recovered, Clean, DiskOk, ListOk, Dirty, Pinned, Sane;
    InvIsSane(L, s);
  }

  lemma CanCrash(L: Layout, s: State)
    requires Inv(L, s)
    ensures Enabled(L, s, Crash)
    ensures Do(L, s, Crash) == s.(cache := map[], pins := {}, lh := [], active := {}, wrote := {}, pc := Restarted)
  {
    hide HeadBlocks, HeadOk, Recovered, Clean, DiskOk, ListOk, Dirty, Pinned, Sane;
    InvIsSane(L, s);
  }

  // ----- whole runs -----

  lemma Extend(L: Layout, s: State, es: seq<Event>, e: Event)
    requires Runs(L, s, es) && Enabled(L, Run(L, s, es), e)
    ensures Runs(L, s, es + [e]) && Run(L, s, es + [e]) == Do(L, Run(L, s, es), e)
  {
    assert (es + [e])[..|es|] == es;
  }

  /** Crash atomicity.  Start on any disk with a readable header and take any number of
      steps: interleaved operations, group commits, crashes between any two block writes,
      recoveries that are themselves cut short.  Then recovery would leave exactly the
      updates of the committed groups; every read returns those and the pending ones; and
      the run is one the specification allows. */
  lemma {:induction false} CrashAtomicity(L: Layout, s: State, es: seq<Event>)
    requires Initial(L, s) && Runs(L, s, es)
    ensures SpecRuns(es)
    ensures Inv(L, Run(L, s, es)) && Refines(L, HomeOf(L, s), Run(L, s, es), SpecRun(es))
  {
    if es == [] {
    } else {
      var front := es[..|es| - 1];
      CrashAtomicity(L, s, front);
      RefineStep(L, HomeOf(L, s), Run(L, s, front), SpecRun(front), es[|es| - 1]);
    }
  }

  /** The home blocks the first recovery of a disk brings about. */
  ghost function HomeOf(L: Layout, s: State): seq<Block>
    requires DiskOk(L, s.disk)
  {
    seq(L.total, b requires 0 <= b < L.total => Recovered(L, s.disk, b))
  }

  /** The same, for one operation and one crash: whatever is on the disk, the operation is
      there in full or not at all. */
  lemma OperationSurvivesWhole(L: Layout, s: State, es: seq<Event>, op: nat)
    requires Initial(L, s) && Runs(L, s, es)
    ensures var sp := SpecRun(es);
            && (Of(sp.committed, op) == [] || Of(sp.committed, op) == Of(sp.issued, op))
            && (op in Run(L, s, es).active ==> Of(sp.committed, op) == [])
    ensures Inv(L, Run(L, s, es))
    ensures forall b: nat :: L.Home(b) ==>
              Recovered(L, Run(L, s, es).disk, b) == Apply(HomeOf(L, s), SpecRun(es).committed)[b]
  {
    CrashAtomicity(L, s, es);
    OperationsAreAtomic(es, op);
  }

  /** When end_op has committed (nothing is outstanding and the commit is over), every
      update made so far that no crash has lost is durable. */
  lemma CommitIsDurable(L: Layout, s: State, es: seq<Event>)
    requires Initial(L, s) && Runs(L, s, es) && Run(L, s, es).pc.Leaving?
    ensures SpecRun(es).pending == [] && SpecRun(es).active == {}
    ensures forall b: nat :: L.Home(b) ==>
              Run(L, s, es).disk[b] == Apply(HomeOf(L, s), SpecRun(es).committed)[b]
  {
    CrashAtomicity(L, s, es);
  }
}
