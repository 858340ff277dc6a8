/** Whose child a process is, in the machine of SleepWait: what fork, reparent and wait do to the
    parents, over all runs. */
module Family {
  import opened SleepWait

  /** A process at `pc` will not look at entry `j` as a child again: it has come past it in reparent, has
      left reparent behind, or is not there. */
  predicate Gone(pc: Pc, j: nat) {
    match pc
    case Vacant | Forked(_) => true
    case Reparent(k) => j < k
    case ReparentWake(k, _) => j <= k
    case ReparentWaking(k, _) => j <= k
    case WakeParent(_) | WakingParent(_) | ZombieLock | ZombieSet | ZombieUnlock | Dying | Dead => true
    case _ => false
  }

  /** fork has taken entry `j` but not yet made it anyone's child. */
  predicate Unborn(m: Machine, j: nat)
    requires j < |m.procs|
  {
    var pc := m.procs[j].pc;
    pc.Forked? && pc.parent < |m.procs| && m.procs[pc.parent].pc in {ForkLock(j), ForkSet(j)}
  }

  /** Entry `j` has a parent as it should: none if it is vacant, init or unborn; while fork is still at
      it, the process that forks. */
  predicate Raised(m: Machine, j: nat)
    requires j < |m.procs|
  {
    var p := m.procs[j];
    if p.pc == Vacant || j == m.initproc || Unborn(m, j) then p.parent == NONE
    else if p.pc.Forked? then p.parent == p.pc.parent
    else 0 <= p.parent < |m.procs|
  }

  /** Nobody is the child of a process that has gone past it. */
  predicate NotLeft(m: Machine, i: nat, j: nat)
    requires i < |m.procs| && j < |m.procs|
  {
    Gone(m.procs[i].pc, j) ==> m.procs[j].parent != i
  }

  ghost predicate Family(m: Machine) {
    && (forall j: nat {:trigger Raised(m, j)} :: j < |m.procs| ==> Raised(m, j))
    && (forall i: nat, j: nat {:trigger NotLeft(m, i, j)} :: i < |m.procs| && j < |m.procs| ==> NotLeft(m, i, j))
  }

  /** The parent of entry `j` after event `e`. */
  function NewParent(m: Machine, e: Event, j: nat): int
    requires e.i < |m.procs| && j < |m.procs|
  {
    var pc := m.procs[e.i].pc;
    if e.Run? && pc == Reparent(j) && m.procs[j].parent == e.i then m.initproc
    else if e.Run? && pc == ForkSet(j) then e.i
    else if e.Run? && pc == Check(j) && m.procs[j].state == ZOMBIE then NONE
    else m.procs[j].parent
  }

  predicate Forking(pc: Pc) { pc.ForkLock? || pc.ForkSet? || pc.ForkUnlock? || pc.ForkRun? }

  predicate Waking(pc: Pc) { pc.WakeParent? || pc.WakingParent? || pc.ZombieLock? || pc.ZombieSet? || pc.ZombieUnlock? }

  /** fork goes on. */
  function NextFork(pc: Pc): Pc {
    match pc
    case ForkLock(c) => ForkSet(c)
    case ForkSet(c) => ForkUnlock(c)
    case ForkUnlock(c) => ForkRun(c)
    case _ => Elsewhere
  }

  /** Where process `x` stands after a step of another: only fork, taking its entry or starting it, and
      wait, freeing it, move it. */
  function NewPc(m: Machine, e: Event, x: nat): Pc
    requires e.i < |m.procs| && x < |m.procs|
  {
    var pc := m.procs[e.i].pc;
    if e == CallFork(e.i, x) then Forked(e.i)
    else if e.Run? && pc == ForkRun(x) then Elsewhere
    else if e.Run? && pc == Check(x) && m.procs[x].state == ZOMBIE then Vacant
    else m.procs[x].pc
  }

  /** What a step does to entry `x`, as far as kinship goes. */
  predicate KinStep(m: Machine, m': Machine, e: Event, x: nat)
    requires e.i < |m.procs| == |m'.procs| && x < |m.procs| && (e.CallFork? ==> e.c < |m.procs|)
  {
    && m'.initproc == m.initproc && m'.procs[x].parent == NewParent(m, e, x)
    && (x != e.i ==> m'.procs[x].pc == NewPc(m, e, x))
    && (e.CallFork? ==> m'.procs[e.i].pc == ForkLock(e.c) && m.procs[e.c].pc == Vacant)
  }

  /** Where the process that steps goes. */
  predicate OwnStep(pc: Pc, pc': Pc, n: nat, run: bool) {
    && (pc' == pc || !(pc'.Vacant? || pc'.Forked?))
    && (pc.Forked? || pc.Vacant? ==> pc' == pc)
    && (forall j: nat {:trigger Gone(pc', j)} :: j < n && Gone(pc', j) && !Gone(pc, j) ==>
          run && (pc == Reparent(j) || (pc.Reparent? && pc.k >= n)))
    && (Forking(pc) ==> pc' == if run then NextFork(pc) else pc)
  }

  lemma ForkRuns(m: Machine, i: nat, x: nat)
    requires Inv(m) && Enabled(m, Run(i)) && x < |m.procs| && Forking(m.procs[i].pc)
    ensures |Next(m, i).procs| == |m.procs| && KinStep(m, Next(m, i), Run(i), x)
            && OwnStep(m.procs[i].pc, Next(m, i).procs[i].pc, |m.procs|, true)
  {
    assert LocalOk(m, i);
    hide Inv, LocksOk, ZombieOk, ScanOk, WokenOk, WaitLockOk, ExitOk;
  }

  lemma NotOwnChild(m: Machine, x: nat)
    requires Inv(m) && x < |m.procs|
    ensures m.procs[x].parent != x && !(m.procs[x].pc.Check? && m.procs[x].pc.k == x)
  {
    assert LocalOk(m, x);
    hide Inv, LocksOk, ZombieOk, ScanOk, WokenOk, WaitLockOk, ForkOk, StateOk;
  }

  lemma RousedKin(m: Machine, i: nat, j: nat, chan: int, pc: Pc, x: nat)
    requires Shape(m) && i < |m.procs| && j < |m.procs| && x < |m.procs|
    ensures var m' := Roused(m, i, j, chan, pc);
            && m'.initproc == m.initproc && |m'.procs| == |m.procs| && m'.procs[x].parent == m.procs[x].parent
            && m'.procs[x].pc == if x == i then pc else m.procs[x].pc
  {
  }

  lemma ReparentRuns(m: Machine, i: nat, x: nat)
    requires Inv(m) && Enabled(m, Run(i)) && x < |m.procs| && m.procs[i].pc.Reparent?
    ensures |Next(m, i).procs| == |m.procs| && KinStep(m, Next(m, i), Run(i), x)
            && OwnStep(m.procs[i].pc, Next(m, i).procs[i].pc, |m.procs|, true)
  {
    NotOwnChild(m, i);
    hide Inv, Roused;
  }

  lemma WakeInitRuns(m: Machine, i: nat, x: nat)
    requires Enabled(m, Run(i)) && x < |m.procs| && (m.procs[i].pc.ReparentWake? || m.procs[i].pc.ReparentWaking?)
    ensures |Next(m, i).procs| == |m.procs| && KinStep(m, Next(m, i), Run(i), x)
            && OwnStep(m.procs[i].pc, Next(m, i).procs[i].pc, |m.procs|, true)
  {
    var pc := m.procs[i].pc;
    if pc.ReparentWaking? {
      RousedKin(m, i, pc.j, m.initproc, ReparentWake(pc.k, pc.j + 1), x);
      RousedKin(m, i, pc.j, m.initproc, ReparentWake(pc.k, pc.j + 1), i);
      hide Roused;
    }
  }

  lemma ExitRuns(m: Machine, i: nat, x: nat)
    requires Inv(m) && Enabled(m, Run(i)) && x < |m.procs| && Waking(m.procs[i].pc)
    ensures |Next(m, i).procs| == |m.procs| && KinStep(m, Next(m, i), Run(i), x)
            && OwnStep(m.procs[i].pc, Next(m, i).procs[i].pc, |m.procs|, true)
  {
    hide Inv;
    var pc := m.procs[i].pc;
    if pc.WakingParent? {
      RousedKin(m, i, pc.j, m.procs[i].parent, WakeParent(pc.j + 1), x);
      RousedKin(m, i, pc.j, m.procs[i].parent, WakeParent(pc.j + 1), i);
      hide Roused;
    }
  }

  lemma WaitRuns(m: Machine, i: nat, x: nat)
    requires Inv(m) && Enabled(m, Run(i)) && x < |m.procs|
    requires var pc := m.procs[i].pc;
             !Forking(pc) && !pc.Reparent? && !pc.ReparentWake? && !pc.ReparentWaking? && !Waking(pc)
    ensures |Next(m, i).procs| == |m.procs| && KinStep(m, Next(m, i), Run(i), x)
            && OwnStep(m.procs[i].pc, Next(m, i).procs[i].pc, |m.procs|, true)
  {
    assert LocalOk(m, i);
    hide Inv, LocksOk, ZombieOk, ScanOk, WokenOk, WaitLockOk, ForkOk, StateOk;
  }

  lemma CallForkStep(m: Machine, i: nat, c: nat, x: nat)
    requires Enabled(m, CallFork(i, c)) && x < |m.procs|
    ensures var m' := Conceived(m, i, c);
            && |m'.procs| == |m.procs| && KinStep(m, m', CallFork(i, c), x)
            && OwnStep(m.procs[i].pc, m'.procs[i].pc, |m.procs|, false)
  {
  }

  lemma Quiet(pc: Pc, pc': Pc, n: nat)
    requires || pc' == pc || (pc == Dying && pc' == Dead)
             || (pc' in {WaitLock, ExitLock, Elsewhere, Off, Resumed} && !Forking(pc) && !pc.Forked? && !pc.Vacant?)
    ensures OwnStep(pc, pc', n, false)
  {
  }

  lemma OtherEvents(m: Machine, e: Event, x: nat)
    requires Enabled(m, e) && x < |m.procs| && !e.Run? && !e.CallFork?
    ensures |Do(m, e).procs| == |m.procs| && KinStep(m, Do(m, e), e, x)
            && OwnStep(m.procs[e.i].pc, Do(m, e).procs[e.i].pc, |m.procs|, false)
  {
    hide Next, Ready, OwnStep, Gone;
    Quiet(m.procs[e.i].pc, Do(m, e).procs[e.i].pc, |m.procs|);
  }

  lemma Steps(m: Machine, e: Event, x: nat)
    requires Inv(m) && Enabled(m, e) && x < |m.procs|
    ensures |Do(m, e).procs| == |m.procs| && KinStep(m, Do(m, e), e, x)
            && OwnStep(m.procs[e.i].pc, Do(m, e).procs[e.i].pc, |m.procs|, e.Run?)
  {
    hide Inv, Next, Ready, KinStep, OwnStep;
    if e.Run? {
      var pc := m.procs[e.i].pc;
      if Forking(pc) {
        ForkRuns(m, e.i, x);
      } else if pc.Reparent? {
        ReparentRuns(m, e.i, x);
      } else if pc.ReparentWake? || pc.ReparentWaking? {
        WakeInitRuns(m, e.i, x);
      } else if Waking(pc) {
        ExitRuns(m, e.i, x);
      } else {
        WaitRuns(m, e.i, x);
      }
    } else if e.CallFork? {
      CallForkStep(m, e.i, e.c, x);
    } else {
      OtherEvents(m, e, x);
    }
  }

  /** A parent changes in three places only: reparent gives a child of the exiting process to init, fork
      makes the forking process the parent, and wait clears the entry it frees. */
  lemma ParentStep(m: Machine, e: Event, j: nat)
    requires Inv(m) && Enabled(m, e) && j < |m.procs|
    ensures |Do(m, e).procs| == |m.procs|
    ensures var i, pc, old_, new_ := e.i, m.procs[e.i].pc, m.procs[j].parent, Do(m, e).procs[j].parent;
            new_ != old_ ==>
              || (e == Run(i) && pc == Reparent(j) && old_ == i && new_ == m.initproc)
              || (e == Run(i) && pc == ForkSet(j) && new_ == i)
              || (e == Run(i) && pc == Check(j) && m.procs[j].state == ZOMBIE && new_ == NONE)
    ensures e.Run? && m.procs[e.i].pc == Reparent(j) && m.procs[j].parent == e.i ==>
              Do(m, e).procs[j].parent == m.initproc
    ensures e.Run? && m.procs[e.i].pc == ForkSet(j) ==> Do(m, e).procs[j].parent == e.i
  {
    hide Inv, Next, Ready, OwnStep, Do;
    Steps(m, e, j);
  }

  /** What the invariant of SleepWait says of entry `x` that matters here. */
  lemma Stands(m: Machine, x: nat)
    requires Inv(m) && x < |m.procs|
    ensures Shape(m) && (m.procs[x].state == ZOMBIE ==>
            forall j: nat {:trigger Gone(m.procs[x].pc, j)} :: Gone(m.procs[x].pc, j))
    ensures m.procs[x].pc.Forked? ==>
              var f := m.procs[x].pc.parent;
              f < |m.procs| && f != x && m.procs[f].pc in {ForkLock(x), ForkSet(x), ForkUnlock(x), ForkRun(x)}
    ensures Forking(m.procs[x].pc) ==>
              var c := Target(m.procs[x].pc); 0 <= c < |m.procs| && c != x && m.procs[c].pc == Forked(x)
    ensures m.procs[x].pc.Check? ==> m.procs[x].pc.k != x
    ensures m.procs[x].state == ZOMBIE ==> !Forking(m.procs[x].pc) && !m.procs[x].pc.Forked?
    ensures !Gone(m.procs[m.initproc].pc, x) && (m.procs[x].pc.Reparent? ==> x != m.initproc)
    ensures x == m.initproc ==> m.procs[x].parent == NONE && m.procs[x].pc != Vacant && !m.procs[x].pc.Forked?
  {
    assert LocalOk(m, x) && LocalOk(m, m.initproc);
    hide Inv, LocksOk, ZombieOk, ScanOk, WokenOk, WaitLockOk;
  }

  /** An entry that fork is at, when another process than the one that forks makes a step. */
  lemma ForkedStays(m: Machine, e: Event, x: nat)
    requires Inv(m) && Family(m) && Enabled(m, e) && x < |m.procs| && m.procs[x].pc.Forked?
    requires m.procs[x].pc.parent != e.i
    ensures |Do(m, e).procs| == |m.procs| && Raised(Do(m, e), x)
  {
    hide Inv, Next, Ready, Do, Gone;
    var f := m.procs[x].pc.parent;
    Stands(m, x);
    Stands(m, e.i);
    Stands(m, f);
    assert Raised(m, x);
    hide Family;
    Steps(m, e, x);
    Steps(m, e, f);
    assert Do(m, e).procs[f].pc == m.procs[f].pc;
    assert Do(m, e).procs[x].pc == m.procs[x].pc && Do(m, e).procs[x].parent == m.procs[x].parent;
  }

  lemma ForkedMoves(m: Machine, e: Event, x: nat)
    requires Inv(m) && Family(m) && Enabled(m, e) && x < |m.procs| && m.procs[x].pc.Forked?
    requires m.procs[x].pc.parent == e.i
    ensures |Do(m, e).procs| == |m.procs| && Raised(Do(m, e), x)
  {
    hide Inv, Next, Ready, Do, Gone;
    Stands(m, x);
    Stands(m, e.i);
    assert Raised(m, x);
    hide Family;
    Steps(m, e, x);
  }

  lemma RaisedStep(m: Machine, e: Event, x: nat)
    requires Inv(m) && Family(m) && Enabled(m, e) && x < |m.procs|
    ensures |Do(m, e).procs| == |m.procs| && Raised(Do(m, e), x)
  {
    hide Inv, Next, Ready, Do;
    Steps(m, e, x);
    if m.procs[x].pc.Forked? {
      if m.procs[x].pc.parent == e.i { ForkedMoves(m, e, x); } else { ForkedStays(m, e, x); }
    } else {
      Stands(m, x);
      Stands(m, e.i);
      assert Raised(m, x);
      hide Gone, Family;
    }
  }

  lemma NotLeftStep(m: Machine, e: Event, i: nat, j: nat)
    requires Inv(m) && Family(m) && Enabled(m, e) && i < |m.procs| && j < |m.procs|
    ensures |Do(m, e).procs| == |m.procs| && NotLeft(Do(m, e), i, j)
  {
    hide Inv, Next, Ready, Do;
    Steps(m, e, i);
    Steps(m, e, j);
    Stands(m, i);
    Stands(m, j);
    Stands(m, e.i);
    assert NotLeft(m, i, j) && Raised(m, j);
    var m' := Do(m, e);
    assert Gone(m'.procs[i].pc, j) ==> Gone(m.procs[i].pc, j) || (i == e.i && e.Run? && m.procs[i].pc.Reparent?);
  }

  lemma FamilyStep(m: Machine, e: Event)
    requires Inv(m) && Family(m) && Enabled(m, e)
    ensures Family(Do(m, e))
  {
    hide Inv, Next, Ready, Do, Raised, NotLeft;
    Steps(m, e, e.i);
    var m' := Do(m, e);
    forall j: nat | j < |m'.procs|
      ensures Raised(m', j)
    {
      RaisedStep(m, e, j);
    }
    forall i: nat, j: nat | i < |m'.procs| && j < |m'.procs|
      ensures NotLeft(m', i, j)
    {
      NotLeftStep(m, e, i, j);
    }
  }

  lemma FirstFamily(m: Machine)
    requires Initial(m)
    ensures Family(m)
  {
  }

  lemma {:induction false} FamilyReached(m: Machine, es: seq<Event>)
    requires Initial(m) && Runs(m, es)
    ensures Inv(After(m, es)) && Family(After(m, es))
  {
    hide Inv, Enabled, Do, Family;
    Reachable(m, es);
    if es == [] {
      FirstFamily(m);
    } else {
      FamilyReached(m, es[..|es| - 1]);
      FamilyStep(After(m, es[..|es| - 1]), es[|es| - 1]);
    }
  }

  /** Nobody is an orphan: in every reachable state each process but init, from the moment fork makes
      it somebody's child until it is freed, has a parent that is there, has not become a zombie, and has
      not yet gone past it in exit; while fork is still at it, that is the process that forks. */
  lemma NoOrphans(m: Machine, es: seq<Event>, c: nat)
    requires Initial(m) && Runs(m, es) && c < |After(m, es).procs|
    ensures var s := After(m, es); var p := s.procs[c];
            if p.pc == Vacant || c == s.initproc || Unborn(s, c) then p.parent == NONE
            else
              && 0 <= p.parent < |s.procs| && p.parent != c && !Gone(s.procs[p.parent].pc, c)
              && s.procs[p.parent].state !in {UNUSED, USED, ZOMBIE}
              && (p.pc.Forked? ==> p.parent == p.pc.parent)
  {
    hide Runs, After, Inv;
    FamilyReached(m, es);
    var s := After(m, es);
    assert Raised(s, c);
    Stands(s, c);
    if 0 <= s.procs[c].parent < |s.procs| {
      assert NotLeft(s, s.procs[c].parent, c);
      if !Gone(s.procs[s.procs[c].parent].pc, c) { Alive(s, s.procs[c].parent, c); }
    }
  }

  lemma Alive(m: Machine, i: nat, c: nat)
    requires Inv(m) && i < |m.procs| && c < |m.procs| && !Gone(m.procs[i].pc, c)
    ensures m.procs[i].state !in {UNUSED, USED, ZOMBIE} && (m.procs[c].parent == i ==> i != c)
  {
    assert LocalOk(m, i) && LocalOk(m, c);
    hide Inv, LocksOk, ZombieOk, ScanOk, WokenOk, WaitLockOk, ForkOk;
  }

  /** When reparent is over the exiting process has no child, and it never has one again. */
  lemma NoChildrenAfterReparent(m: Machine, es: seq<Event>, i: nat, c: nat)
    requires Initial(m) && Runs(m, es) && i < |After(m, es).procs| && c < |After(m, es).procs|
    requires var pc := After(m, es).procs[i].pc;
             Waking(pc) || pc == Dying || pc == Dead || pc == Vacant || (pc.Reparent? && pc.k >= |After(m, es).procs|)
    ensures After(m, es).procs[c].parent != i
  {
    hide Runs, After, Inv;
    FamilyReached(m, es);
    assert NotLeft(After(m, es), i, c);
  }

  // ----- wait sleeps only for the sake of a child -----

  /** The scan of wait has met a child, or is over and has not failed. */
  predicate MetChild(pc: Pc) { (pc.Scan? && pc.kids) || pc.SleepLock? || pc.SleepUnlock? }

  predicate HasChild(m: Machine, i: nat) {
    exists c: nat {:trigger m.procs[c]} :: c < |m.procs| && m.procs[c].parent == i
  }

  ghost predicate Parental(m: Machine) {
    forall i: nat {:trigger m.procs[i]} :: i < |m.procs| && MetChild(m.procs[i].pc) ==> HasChild(m, i)
  }

  lemma OtherMeets(m: Machine, e: Event)
    requires Enabled(m, e) && !e.Run?
    ensures |Do(m, e).procs| == |m.procs| && (MetChild(Do(m, e).procs[e.i].pc) ==> MetChild(m.procs[e.i].pc))
  {
    hide Next, Ready;
  }

  predicate Waiting(pc: Pc) {
    pc.WaitLock? || pc.Scan? || pc.Check? || pc.SleepLock? || pc.SleepUnlock? || pc.SleepSet? || pc.Resumed?
  }

  lemma WaitMeets(m: Machine, i: nat)
    requires Enabled(m, Run(i)) && Waiting(m.procs[i].pc)
    ensures var pc := m.procs[i].pc;
            && |Next(m, i).procs| == |m.procs|
            && (MetChild(Next(m, i).procs[i].pc) ==>
                  (MetChild(pc) || (pc.Check? && pc.k < |m.procs|)) && (pc.Check? ==> m.procs[pc.k].state != ZOMBIE))
  {
  }

  lemma RunMeets(m: Machine, i: nat)
    requires Enabled(m, Run(i)) && !Waiting(m.procs[i].pc)
    ensures |Next(m, i).procs| == |m.procs| && !MetChild(Next(m, i).procs[i].pc)
  {
    var pc := m.procs[i].pc;
    if pc.ReparentWaking? {
      RousedKin(m, i, pc.j, m.initproc, ReparentWake(pc.k, pc.j + 1), i);
      hide Roused;
    } else if pc.WakingParent? {
      RousedKin(m, i, pc.j, m.procs[i].parent, WakeParent(pc.j + 1), i);
      hide Roused;
    }
  }

  /** A process takes that view only from a child it has just looked at, or having it already. */
  lemma MeetsChild(m: Machine, e: Event, i: nat)
    requires Inv(m) && Enabled(m, e) && i < |m.procs|
    ensures |Do(m, e).procs| == |m.procs|
    ensures MetChild(Do(m, e).procs[i].pc) ==>
              || MetChild(m.procs[i].pc)
              || (i == e.i && m.procs[i].pc.Check? && m.procs[i].pc.k < |m.procs|
                 && m.procs[m.procs[i].pc.k].parent == i)
    ensures MetChild(Do(m, e).procs[i].pc) && i == e.i && e.Run? ==>
              !m.procs[i].pc.Reparent? && (m.procs[i].pc.Check? ==> m.procs[m.procs[i].pc.k].state != ZOMBIE)
  {
    hide Inv, Next, Ready, OwnStep;
    if i != e.i {
      Steps(m, e, i);
    } else if e.Run? {
      if Waiting(m.procs[i].pc) { WaitMeets(m, i); } else { RunMeets(m, i); }
      if m.procs[i].pc.Check? { CheckedChild(m, i); }
    } else {
      OtherMeets(m, e);
    }
  }

  lemma ParentalStep(m: Machine, e: Event)
    requires Inv(m) && Family(m) && Parental(m) && Enabled(m, e)
    ensures Parental(Do(m, e))
  {
    hide Inv, Next, Ready, Do, Family;
    Steps(m, e, e.i);
    var m' := Do(m, e);
    forall i: nat | i < |m'.procs| && MetChild(m'.procs[i].pc)
      ensures HasChild(m', i)
    {
      MeetsChild(m, e, i);
      var c: nat :| c < |m.procs| && m.procs[c].parent == i
                    && (MetChild(m.procs[i].pc) || m.procs[i].pc == Check(c));
      StillChild(m, e, i, c);
      assert m'.procs[c].parent == i;
    }
  }

  lemma StillChild(m: Machine, e: Event, i: nat, c: nat)
    requires Inv(m) && Family(m) && Enabled(m, e) && i < |m.procs| && c < |m.procs| && m.procs[c].parent == i
    requires i == e.i && e.Run? ==>
               !m.procs[i].pc.Reparent? && (m.procs[i].pc.Check? ==> m.procs[m.procs[i].pc.k].state != ZOMBIE)
    ensures |Do(m, e).procs| == |m.procs| && Do(m, e).procs[c].parent == i
  {
    hide Inv, Next, Ready, Do;
    Steps(m, e, c);
    Stands(m, e.i);
    assert Raised(m, c);
    if e.Run? && m.procs[e.i].pc.Check? { CheckedChild(m, e.i); }
  }

  lemma CheckedChild(m: Machine, i: nat)
    requires Inv(m) && i < |m.procs| && m.procs[i].pc.Check?
    ensures m.procs[i].pc.k < |m.procs| && m.procs[m.procs[i].pc.k].parent == i
  {
    assert LocalOk(m, i);
  }

  lemma {:induction false} ParentalReached(m: Machine, es: seq<Event>)
    requires Initial(m) && Runs(m, es)
    ensures Parental(After(m, es))
  {
    hide Inv, Enabled, Do, Family;
    if es == [] {
      hide Runs;
    } else {
      FamilyReached(m, es[..|es| - 1]);
      ParentalReached(m, es[..|es| - 1]);
      hide Parental;
      ParentalStep(After(m, es[..|es| - 1]), es[|es| - 1]);
    }
  }

  /** At the end of its scan wait returns -1 if and only if its caller has no child or has been killed;
      otherwise it goes to sleep. */
  lemma WaitGivesUpExactly(m: Machine, es: seq<Event>, i: nat)
    requires Initial(m) && Runs(m, es)
    requires var s := After(m, es); Enabled(s, Run(i)) && s.procs[i].pc.Scan? && s.procs[i].pc.k >= |s.procs|
    ensures var s := After(m, es);
            var pc' := Do(s, Run(i)).procs[i].pc;
            && (pc' == Elsewhere <==> !HasChild(s, i) || s.procs[i].killed)
            && (pc' != Elsewhere ==> pc' == SleepLock)
  {
    hide Runs, After, Inv;
    ParentalReached(m, es);
    var s := After(m, es);
    if Do(s, Run(i)).procs[i].pc == Elsewhere && !s.procs[i].killed {
      forall c: nat | c < |s.procs|
        ensures s.procs[c].parent != i
      {
        WaitFailsOnlyWithoutChildren(m, es, i, c);
      }
    }
  }
}
