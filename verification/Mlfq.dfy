/** The scheduler as a machine: what proc.c does to process states, levels and queues, one
    event at a time, on one hart. */
module Mlfq {
  import opened Queue

  const NICE_MIN: int := -20
  const NICE_MAX: int := 19
  const BOOST_PERIOD: nat := 60

  datatype ProcState = UNUSED | USED | SLEEPING | RUNNABLE | RUNNING | ZOMBIE

  datatype Proc = Proc(state: ProcState, queue: Level, nice: int, runtime: nat, chan: nat, killed: bool, pid: nat)

  const FREE_PROC := Proc(UNUSED, 0, 0, 0, 0, false, 0)

  type Table = s: seq<Proc> | |s| == 64 witness seq(64, _ => FREE_PROC)

  /** `last` is the process the scheduler dispatched most recently, NPROC if none; it runs
      while `running` holds, and is dispatched again without a look at the queues if
      `kicked` (p_kicked) is false. */
  datatype Machine = Machine(procs: Table, ls: Lists, kicked: bool, last: nat, running: bool, time: nat)

  function Priority(nice: int): Level {
    if nice > 10 then QUEUE_LOW else if nice > -10 then QUEUE_MEDIUM else QUEUE_HIGH
  }

  function Quantum(q: Level): nat {
    if q == QUEUE_HIGH then 1 else if q == QUEUE_MEDIUM then 10 else 15
  }

  function Clamp(nice: int): int {
    var low := if nice < NICE_MAX then nice else NICE_MAX;
    if low > NICE_MIN then low else NICE_MIN
  }

  datatype Event =
    | Alloc(slot: nat, pid: nat)   // allocproc
    | Free(slot: nat)              // freeproc: a failed fork, or wait collecting a zombie
    | Ready(slot: nat)             // fork or userinit makes the new process runnable
    | Dispatch                     // one round of scheduler()
    | Tick                         // timer interrupt: ++time, and yield() if a process runs
    | Nice(inc: int)               // sys_nice
    | Sleep(chan: nat)
    | Exit
    | Wakeup(chan: nat)
    | Kill(pid: nat)

  function SetProc(m: Machine, i: nat, p: Proc): Machine
    requires i < NPROC
  {
    m.(procs := m.procs[i := p])
  }

  /** make_runnable. */
  function MakeRunnable(m: Machine, i: nat): Machine
    requires i < NPROC
  {
    SetProc(m, i, m.procs[i].(state := RUNNABLE)).(ls := Append(m.ls, m.procs[i].queue, i))
  }

  /** The first half of yield(): one tick charged, demotion when the quantum is used up. */
  function Charge(m: Machine): Machine
    requires m.last < NPROC
  {
    var p := m.procs[m.last];
    if p.runtime + 1 >= Quantum(p.queue) then
      var q: Level := if p.queue > 0 then p.queue - 1 else 0;
      SetProc(m, m.last, p.(state := RUNNABLE, queue := q, runtime := 0)).(ls := Append(m.ls, q, m.last))
    else
      SetProc(m, m.last, p.(state := RUNNABLE, runtime := p.runtime + 1)).(kicked := false)
  }

  /** The priority boost after its loop has treated the first `n` slots. */
  function BoostUpTo(m: Machine, n: nat): Machine
    requires m.last < NPROC && n <= NPROC
  {
    if n == 0 then
      SetProc(m, m.last, m.procs[m.last].(runtime := 0)).(ls := EMPTY_LISTS, kicked := true)
    else
      var b := BoostUpTo(m, n - 1);
      var p := b.procs[n - 1];
      if p.state.RUNNABLE? then
        SetProc(b, n - 1, p.(queue := Priority(p.nice), runtime := 0)).(ls := Append(b.ls, Priority(p.nice), n - 1))
      else b
  }

  function Yield(m: Machine): Machine
    requires m.last < NPROC
  {
    var c := Charge(m).(running := false);
    if m.time % BOOST_PERIOD == 0 then BoostUpTo(c, NPROC) else c
  }

  /** wakeup's loop over the first `n` slots; the caller itself is skipped. */
  function WakeUpTo(m: Machine, chan: nat, n: nat): Machine
    requires n <= NPROC
  {
    if n == 0 then m
    else
      var w := WakeUpTo(m, chan, n - 1);
      if !(w.running && n - 1 == w.last) && w.procs[n - 1].state.SLEEPING? && w.procs[n - 1].chan == chan
      then MakeRunnable(w, n - 1) else w
  }

  /** kill's loop from slot `i` on: the first process with that pid. */
  function KillFrom(m: Machine, pid: nat, i: nat): Machine
    requires i <= NPROC
    decreases NPROC - i
  {
    if i == NPROC then m
    else if m.procs[i].pid == pid then
      var k := SetProc(m, i, m.procs[i].(killed := true));
      if m.procs[i].state.SLEEPING? then MakeRunnable(k, i) else k
    else KillFrom(m, pid, i + 1)
  }

  predicate Enabled(m: Machine, e: Event) {
    match e
    case Alloc(i, _) => i < NPROC && m.procs[i].state.UNUSED?
    case Free(i) => i < NPROC && (m.procs[i].state.USED? || m.procs[i].state.ZOMBIE?)
    case Ready(i) => i < NPROC && m.procs[i].state.USED?
    case Dispatch => !m.running && (if m.kicked then m.ls != EMPTY_LISTS else m.last < NPROC)
    case Tick => m.running ==> m.last < NPROC
    case Nice(_) | Sleep(_) | Exit => m.running && m.last < NPROC
    case Wakeup(_) | Kill(_) => true
  }

  function Step(m: Machine, e: Event): Machine
    requires Enabled(m, e) && (e.Dispatch? && m.kicked ==> m.ls[Top(m.ls)][0] < NPROC)
  {
    match e
    case Alloc(i, pid) =>
      SetProc(m, i, m.procs[i].(state := USED, pid := pid, queue := Priority(m.procs[i].nice)))
    case Free(i) => SetProc(m, i, FREE_PROC)
    case Ready(i) => MakeRunnable(m, i)
    case Dispatch =>
      var m' := if m.kicked then m.(ls := Pop(m.ls, Top(m.ls)), last := m.ls[Top(m.ls)][0]) else m;
      SetProc(m', m'.last, m'.procs[m'.last].(state := RUNNING)).(kicked := true, running := true)
    case Tick => if m.running then Yield(m.(time := m.time + 1)) else m.(time := m.time + 1)
    case Nice(inc) =>
      var nice := Clamp(m.procs[m.last].nice + inc);
      Yield(SetProc(m, m.last, m.procs[m.last].(nice := nice, queue := Priority(nice), runtime := 0)).(kicked := true))
    case Sleep(chan) =>
      SetProc(m, m.last, m.procs[m.last].(state := SLEEPING, chan := chan)).(running := false)
    case Exit => SetProc(m, m.last, m.procs[m.last].(state := ZOMBIE)).(running := false)
    case Wakeup(chan) => WakeUpTo(m, chan, NPROC)
    case Kill(pid) => KillFrom(m, pid, 0)
  }

  // ----- the invariant -----

  predicate Sane(p: Proc) {
    NICE_MIN <= p.nice <= NICE_MAX && p.runtime < Quantum(p.queue) && p.queue <= Priority(p.nice)
    && (p.state.UNUSED? ==> p.runtime == 0)
  }

  /** The process that keeps the CPU without being in a queue. */
  predicate Retained(m: Machine, i: nat) { !m.kicked && !m.running && i == m.last }

  /** Slot `i` is in a queue, the one for its level, exactly when it is runnable and not
      retained. */
  ghost predicate Placed(m: Machine, i: nat)
    requires i < NPROC
  {
    && (forall q: Level, k: nat {:trigger At(m.ls, q, k, i)} :: At(m.ls, q, k, i) ==> q == m.procs[i].queue)
    && (Queued(m.ls, i) <==> m.procs[i].state.RUNNABLE? && !Retained(m, i))
  }

  ghost predicate Inv(m: Machine) {
    && Slots(m.ls)
    && (forall i: nat {:trigger Placed(m, i)} :: i < NPROC ==> Placed(m, i))
    && (forall i: nat {:trigger m.procs[i]} :: i < NPROC ==> Sane(m.procs[i]))
    && (forall i: nat {:trigger m.procs[i]} :: i < NPROC ==> (m.procs[i].state.RUNNING? <==> m.running && i == m.last))
    && (m.running ==> m.kicked && m.last < NPROC)
    && (!m.kicked ==> m.last < NPROC && m.procs[m.last].state.RUNNABLE?)
  }

  lemma SaneAt(m: Machine, i: nat)
    requires Inv(m) && i < NPROC
    ensures Sane(m.procs[i])
  {
  }

  lemma ReadyInv(m: Machine, i: nat)
    requires Inv(m) && i < NPROC && (m.procs[i].state.SLEEPING? || m.procs[i].state.USED?)
    ensures Inv(MakeRunnable(m, i))
  {
    assert Placed(m, i);
    AppendSlots(m.ls, m.procs[i].queue, i);
    var m' := MakeRunnable(m, i);
    forall j: nat | j < NPROC
      ensures Placed(m', j)
    {
      assert Placed(m, j);
      assert forall q: Level, k: nat :: At(m'.ls, q, k, j) ==>
        At(m.ls, q, k, j) || (j == i && q == m.procs[i].queue);
    }
  }

  /** The process that yields is queued one level down, or retained. */
  lemma ChargeInv(m: Machine)
    requires Inv(m) && m.running
    ensures Inv(Charge(m).(running := false))
  {
    var i, m' := m.last, Charge(m).(running := false);
    var p := m.procs[i];
    assert Placed(m, i);
    var q: Level := if p.queue > 0 then p.queue - 1 else 0;
    AppendSlots(m.ls, q, i);
    forall j: nat | j < NPROC
      ensures Placed(m', j)
    {
      assert Placed(m, j);
      assert forall q': Level, k: nat :: At(m'.ls, q', k, j) ==> At(m.ls, q', k, j) || (j == i && q' == q);
    }
  }

  /** During the boost: exactly the runnable slots already treated are in queues. */
  ghost predicate Boosting(m: Machine, b: Machine, n: nat) {
    && Slots(b.ls) && b.kicked && b.last == m.last && b.running == m.running && b.time == m.time
    && (forall i: nat {:trigger Requeued(m, b, n, i)} :: i < NPROC ==> Requeued(m, b, n, i))
  }

  /** Slot `i` after the boost has treated the first `n`. */
  function Boosted(m: Machine, n: nat, i: nat): Proc
    requires i < NPROC
  {
    var p := m.procs[i];
    if p.state.RUNNABLE? && i < n then p.(queue := Priority(p.nice), runtime := 0)
    else if i == m.last then p.(runtime := 0)
    else p
  }

  ghost predicate Requeued(m: Machine, b: Machine, n: nat, i: nat)
    requires i < NPROC
  {
    && (Queued(b.ls, i) <==> m.procs[i].state.RUNNABLE? && i < n)
    && (forall q: Level, k: nat {:trigger At(b.ls, q, k, i)} :: At(b.ls, q, k, i) ==> q == b.procs[i].queue)
    && b.procs[i] == Boosted(m, n, i)
  }

  lemma BoostSlot(m: Machine, n: nat, i: nat)
    requires m.last < NPROC && 1 <= n <= NPROC && i < NPROC && Slots(BoostUpTo(m, n - 1).ls)
    requires Requeued(m, BoostUpTo(m, n - 1), n - 1, n - 1) && Requeued(m, BoostUpTo(m, n - 1), n - 1, i)
    ensures Requeued(m, BoostUpTo(m, n), n, i) && Slots(BoostUpTo(m, n).ls)
  {
    var b, b' := BoostUpTo(m, n - 1), BoostUpTo(m, n);
    var p := b.procs[n - 1];
    if p.state.RUNNABLE? {
      AppendSlots(b.ls, Priority(p.nice), n - 1);
      assert forall q: Level, k: nat :: At(b'.ls, q, k, i) ==>
             At(b.ls, q, k, i) || (i == n - 1 && q == Priority(p.nice));
    }
  }

  lemma {:induction false} BoostRequeues(m: Machine, n: nat)
    requires m.last < NPROC && n <= NPROC
    ensures Boosting(m, BoostUpTo(m, n), n)
  {
    hide Requeued, Slots;
    if n == 0 {
      BoostStart(m);
    } else {
      var b := BoostUpTo(m, n - 1);
      BoostRequeues(m, n - 1);
      assert Requeued(m, b, n - 1, n - 1);
      forall i: nat | i < NPROC
        ensures Requeued(m, BoostUpTo(m, n), n, i) && Slots(BoostUpTo(m, n).ls)
      {
        assert Requeued(m, b, n - 1, i);
        BoostSlot(m, n, i);
      }
      assert Requeued(m, BoostUpTo(m, n), n, 0);
    }
  }

  lemma BoostStart(m: Machine)
    requires m.last < NPROC
    ensures Boosting(m, BoostUpTo(m, 0), 0)
  {
    assert forall q: Level, k: nat, i: nat :: !At(EMPTY_LISTS, q, k, i);
  }

  lemma BoostInv(m: Machine)
    requires Inv(m) && !m.running && m.last < NPROC
    ensures Inv(BoostUpTo(m, NPROC))
  {
    BoostRequeues(m, NPROC);
    var b := BoostUpTo(m, NPROC);
    forall i: nat | i < NPROC
      ensures Placed(b, i) && Sane(b.procs[i]) && !b.procs[i].state.RUNNING?
    {
      assert Requeued(m, b, NPROC, i);
    }
  }

  lemma YieldInv(m: Machine)
    requires Inv(m) && m.running
    ensures Inv(Yield(m))
  {
    hide Placed, Slots;
    ChargeInv(m);
    if m.time % BOOST_PERIOD == 0 {
      BoostInv(Charge(m).(running := false));
    }
  }

  /** yield changes neither the clock nor any nice value. */
  lemma YieldKeeps(m: Machine, i: nat)
    requires m.last < NPROC && i < NPROC
    ensures Yield(m).time == m.time && Yield(m).procs[i].nice == m.procs[i].nice
  {
    var c := Charge(m).(running := false);
    hide BoostUpTo, Slots;
    BoostRequeues(c, NPROC);
    assert Requeued(c, BoostUpTo(c, NPROC), NPROC, i);
  }

  lemma DispatchInv(m: Machine)
    requires Inv(m) && Enabled(m, Dispatch)
    ensures m.kicked ==> m.ls[Top(m.ls)][0] < NPROC
    ensures Inv(Step(m, Dispatch))
  {
    if m.kicked {
      PopSlots(m.ls, Top(m.ls));
      assert At(m.ls, Top(m.ls), 0, m.ls[Top(m.ls)][0]);
    }
    var m' := Step(m, Dispatch);
    assert Placed(m, m'.last);
    forall j: nat | j < NPROC
      ensures Placed(m', j)
    {
      assert Placed(m, j);
      forall q: Level, k: nat | At(m'.ls, q, k, j)
        ensures q == m.procs[j].queue
      {
        assert At(m.ls, q, if m.kicked && q == Top(m.ls) then k + 1 else k, j);
      }
    }
  }

  lemma TimeInv(m: Machine, time: nat)
    requires Inv(m)
    ensures Inv(m.(time := time))
  {
    forall i: nat | i < NPROC
      ensures Placed(m.(time := time), i)
    {
      assert Placed(m, i);
    }
  }

  lemma {:induction false} WakeInv(m: Machine, chan: nat, n: nat)
    requires Inv(m) && n <= NPROC
    ensures Inv(WakeUpTo(m, chan, n))
  {
    if n > 0 {
      WakeInv(m, chan, n - 1);
      var w := WakeUpTo(m, chan, n - 1);
      if w.procs[n - 1].state.SLEEPING? { ReadyInv(w, n - 1); }
    }
  }

  /** A change to fields the queues do not depend on. */
  lemma SetProcInv(m: Machine, i: nat, p: Proc)
    requires Inv(m) && i < NPROC && Sane(p)
    requires p.state == m.procs[i].state
             || (!m.procs[i].state.RUNNABLE? && !p.state.RUNNABLE? && !m.procs[i].state.RUNNING? && !p.state.RUNNING?)
    requires p.queue == m.procs[i].queue || !m.procs[i].state.RUNNABLE?
    ensures Inv(SetProc(m, i, p))
  {
    var m' := SetProc(m, i, p);
    assert Placed(m, i);
    forall j: nat | j < NPROC
      ensures Placed(m', j)
    {
      assert Placed(m, j);
      assert !Queued(m.ls, j) ==> forall q: Level, k: nat :: At(m.ls, q, k, j) ==> j in m.ls[q];
    }
  }

  lemma {:induction false} KillInv(m: Machine, pid: nat, i: nat)
    requires Inv(m) && i <= NPROC
    ensures Inv(KillFrom(m, pid, i))
    decreases NPROC - i
  {
    if i < NPROC {
      if m.procs[i].pid == pid {
        var k := SetProc(m, i, m.procs[i].(killed := true));
        SetProcInv(m, i, m.procs[i].(killed := true));
        if m.procs[i].state.SLEEPING? { ReadyInv(k, i); }
      } else {
        KillInv(m, pid, i + 1);
      }
    }
  }

  /** Sleep and exit: the running process leaves the CPU and no queue changes. */
  lemma LeaveInv(m: Machine, p: Proc)
    requires Inv(m) && m.running && Sane(p) && (p.state.SLEEPING? || p.state.ZOMBIE?)
    ensures Inv(SetProc(m, m.last, p).(running := false))
  {
    var m' := SetProc(m, m.last, p).(running := false);
    forall j: nat | j < NPROC
      ensures Placed(m', j)
    {
      assert Placed(m, j);
      assert !Queued(m.ls, j) ==> forall q: Level, k: nat :: At(m.ls, q, k, j) ==> j in m.ls[q];
    }
  }

  lemma InvStep(m: Machine, e: Event)
    requires Inv(m) && Enabled(m, e)
    ensures e.Dispatch? && m.kicked ==> m.ls[Top(m.ls)][0] < NPROC
    ensures Inv(Step(m, e))
  {
    hide Placed, Slots;
    match e
    case Alloc(i, pid) => SetProcInv(m, i, m.procs[i].(state := USED, pid := pid, queue := Priority(m.procs[i].nice)));
    case Free(i) => SetProcInv(m, i, FREE_PROC);
    case Ready(i) => ReadyInv(m, i);
    case Dispatch => DispatchInv(m);
    case Tick =>
      TimeInv(m, m.time + 1);
      if m.running { YieldInv(m.(time := m.time + 1)); }
    case Nice(inc) =>
      var nice := Clamp(m.procs[m.last].nice + inc);
      var p := m.procs[m.last].(nice := nice, queue := Priority(nice), runtime := 0);
      SetProcInv(m, m.last, p);
      YieldInv(SetProc(m, m.last, p));
    case Sleep(chan) => LeaveInv(m, m.procs[m.last].(state := SLEEPING, chan := chan));
    case Exit => LeaveInv(m, m.procs[m.last].(state := ZOMBIE));
    case Wakeup(chan) => WakeInv(m, chan, NPROC);
    case Kill(pid) => KillInv(m, pid, 0);
  }

  // ----- whole runs -----

  predicate Runs(m: Machine, es: seq<Event>)
    decreases |es|, 0
  {
    es == [] || (Runs(m, es[..|es| - 1]) && Possible(Run(m, es[..|es| - 1]), es[|es| - 1]))
  }

  predicate Possible(m: Machine, e: Event) {
    Enabled(m, e) && (e.Dispatch? && m.kicked ==> m.ls[Top(m.ls)][0] < NPROC)
  }

  function Run(m: Machine, es: seq<Event>): Machine
    requires Runs(m, es)
    decreases |es|, 1
  {
    if es == [] then m else Step(Run(m, es[..|es| - 1]), es[|es| - 1])
  }

  /** The kernel before userinit. */
  const BOOTED := Machine(seq(NPROC, _ => FREE_PROC), EMPTY_LISTS, true, NPROC, false, 0)

  lemma BootInv()
    ensures Inv(BOOTED)
  {
    forall i: nat | i < NPROC
      ensures Placed(BOOTED, i)
    {
      assert forall q: Level, k: nat :: !At(EMPTY_LISTS, q, k, i);
    }
  }

  /** In every run from boot that dispatches from a non-empty table, every slot is in
      exactly one queue, the one for its level, if and only if it is runnable and not the
      retained process; levels never exceed the nice level and quanta are never exceeded. */
  lemma {:induction false} SchedulerInvariant(es: seq<Event>)
    requires Runs(BOOTED, es)
    ensures Inv(Run(BOOTED, es))
  {
    if es == [] {
      BootInv();
    } else {
      SchedulerInvariant(es[..|es| - 1]);
      InvStep(Run(BOOTED, es[..|es| - 1]), es[|es| - 1]);
    }
  }

  // ----- the scheduling rules -----

  /** Rule 1, when the previous process has been kicked: no runnable process is at a higher
      level than the one dispatched, which has waited longest at its level. */
  lemma KickedDispatchIsHighest(m: Machine, j: nat)
    requires Inv(m) && Enabled(m, Dispatch) && m.kicked && j < NPROC && m.procs[j].state.RUNNABLE?
    ensures m.ls[Top(m.ls)][0] < NPROC
    ensures var m' := Step(m, Dispatch);
            && m.procs[m'.last].queue == Top(m.ls) >= m.procs[j].queue
            && m.ls[Top(m.ls)] == [m'.last] + m'.ls[Top(m.ls)]
            && forall q: Level :: q != Top(m.ls) ==> m'.ls[q] == m.ls[q]
  {
    DispatchInv(m);
    var x := m.ls[Top(m.ls)][0];
    assert At(m.ls, Top(m.ls), 0, x) && Placed(m, x) && Placed(m, j);
    assert exists q: Level :: j in m.ls[q];
    var q: Level :| j in m.ls[q];
    var k: nat :| k < |m.ls[q]| && m.ls[q][k] == j;
    assert At(m.ls, q, k, j);
  }

  /** The event brings a boost. */
  predicate Boosts(m: Machine, e: Event) {
    m.running && ((e.Tick? && (m.time + 1) % BOOST_PERIOD == 0) || (e.Nice? && m.time % BOOST_PERIOD == 0))
  }

  lemma {:induction false} WakeAppends(m: Machine, chan: nat, n: nat, q: Level)
    requires n <= NPROC
    ensures m.ls[q] <= WakeUpTo(m, chan, n).ls[q]
  {
    if n > 0 { WakeAppends(m, chan, n - 1, q); }
  }

  lemma {:induction false} KillAppends(m: Machine, pid: nat, i: nat, q: Level)
    requires i <= NPROC
    ensures m.ls[q] <= KillFrom(m, pid, i).ls[q]
    decreases NPROC - i
  {
    if i < NPROC && m.procs[i].pid != pid { KillAppends(m, pid, i + 1, q); }
  }

  /** Rule 2, round robin: until a boost every queue is first in, first out.  Only a dispatch that looks at
      the queues takes anything from one, and that is the front of the highest; whatever is queued goes to
      the back. */
  lemma QueuesAreFifo(m: Machine, e: Event, q: Level)
    requires Possible(m, e) && !Boosts(m, e)
    ensures if e.Dispatch? && m.kicked && q == Top(m.ls) then m.ls[q] != [] && Step(m, e).ls[q] == m.ls[q][1..]
            else m.ls[q] <= Step(m, e).ls[q]
  {
    match e
    case Wakeup(chan) => WakeAppends(m, chan, NPROC, q);
    case Kill(pid) => KillAppends(m, pid, 0, q);
    case _ => hide WakeUpTo, KillFrom, BoostUpTo;
  }

  /** Rule 1 otherwise: the retained process goes on running whatever waits above it, so the
      rule holds exactly when nothing does. */
  lemma RetainedDispatchIgnoresLevels(m: Machine)
    requires Inv(m) && Enabled(m, Dispatch) && !m.kicked
    ensures Step(m, Dispatch).last == m.last && Step(m, Dispatch).ls == m.ls
    ensures (forall j: nat :: j < NPROC && m.procs[j].state.RUNNABLE? ==> m.procs[j].queue <= m.procs[m.last].queue)
            <==> forall q: Level :: q > m.procs[m.last].queue ==> m.ls[q] == []
  {
    var top := m.procs[m.last].queue;
    forall q: Level | q > top && m.ls[q] != []
      ensures m.ls[q][0] < NPROC && m.procs[m.ls[q][0]].state.RUNNABLE? && m.procs[m.ls[q][0]].queue == q
    {
      assert At(m.ls, q, 0, m.ls[q][0]) && m.ls[q][0] in m.ls[q];
      assert Placed(m, m.ls[q][0]);
    }
    forall j: nat | j < NPROC && m.procs[j].state.RUNNABLE? && m.procs[j].queue > top
      ensures m.ls[m.procs[j].queue] != []
    {
      assert Placed(m, j);
      assert exists q: Level :: j in m.ls[q];
      var q: Level :| j in m.ls[q];
      var k: nat :| k < |m.ls[q]| && m.ls[q][k] == j;
      assert At(m.ls, q, k, j);
    }
  }

  // ----- whom wakeup and kill reach -----

  predicate Increasing(s: seq<nat>) { forall a, b :: 0 <= a < b < |s| ==> s[a] < s[b] }

  /** A queue has got the slots `more` at its back, in slot order. */
  ghost predicate Followed(queue: seq<nat>, queue': seq<nat>, more: set<nat>) {
    queue <= queue' && Increasing(queue'[|queue|..]) && forall i: nat :: i in queue'[|queue|..] <==> i in more
  }

  lemma FollowedMore(queue: seq<nat>, queue': seq<nat>, more: set<nat>, i: nat)
    requires Followed(queue, queue', more) && forall j :: j in more ==> j < i
    ensures Followed(queue, queue' + [i], more + {i})
  {
    assert (queue' + [i])[|queue|..] == queue'[|queue|..] + [i];
    forall a | 0 <= a < |queue'[|queue|..]|
      ensures queue'[|queue|..][a] < i
    {
      assert queue'[|queue|..][a] in queue'[|queue|..];
    }
  }

  /** A process other than the caller, asleep on the channel. */
  predicate Sleeper(m: Machine, chan: nat, i: nat) {
    i < NPROC && !(m.running && i == m.last) && m.procs[i].state == SLEEPING && m.procs[i].chan == chan
  }

  function SleepersAt(m: Machine, chan: nat, q: Level, n: nat): set<nat> {
    set i: nat | i < n && Sleeper(m, chan, i) && m.procs[i].queue == q
  }

  /** wakeup makes runnable the processes asleep on the channel, all of them and no others, and queues
      each at its level, in slot order. */
  lemma {:induction false} WakesSleepers(m: Machine, chan: nat, n: nat)
    requires n <= NPROC
    ensures var w := WakeUpTo(m, chan, n);
            && w == m.(procs := w.procs, ls := w.ls)
            && (forall i: nat {:trigger w.procs[i]} :: i < NPROC ==>
                  w.procs[i] == if i < n && Sleeper(m, chan, i) then m.procs[i].(state := RUNNABLE) else m.procs[i])
            && forall q: Level {:trigger w.ls[q]} :: Followed(m.ls[q], w.ls[q], SleepersAt(m, chan, q, n))
  {
    var w := WakeUpTo(m, chan, n);
    if n == 0 {
      assert forall q: Level :: SleepersAt(m, chan, q, 0) == {};
    } else {
      WakesSleepers(m, chan, n - 1);
      hide Followed;
      var v := WakeUpTo(m, chan, n - 1);
      assert v.procs[n - 1] == m.procs[n - 1];
      forall q: Level
        ensures Followed(m.ls[q], w.ls[q], SleepersAt(m, chan, q, n))
      {
        if Sleeper(m, chan, n - 1) && m.procs[n - 1].queue == q {
          FollowedMore(m.ls[q], v.ls[q], SleepersAt(m, chan, q, n - 1), n - 1);
          assert SleepersAt(m, chan, q, n) == SleepersAt(m, chan, q, n - 1) + {n - 1};
        } else {
          assert SleepersAt(m, chan, q, n) == SleepersAt(m, chan, q, n - 1);
        }
      }
    }
  }

  /** kill marks the first process with that pid and, if it sleeps on whatever channel, makes it
      runnable at the back of its queue. */
  lemma {:induction false} KillsFirst(m: Machine, pid: nat, k: nat, i: nat)
    requires k <= i <= NPROC && forall j: nat {:trigger m.procs[j]} :: k <= j < i ==> m.procs[j].pid != pid
    requires i < NPROC ==> m.procs[i].pid == pid
    ensures KillFrom(m, pid, k) ==
            if i == NPROC then m
            else if m.procs[i].state == SLEEPING then
              SetProc(m, i, m.procs[i].(killed := true, state := RUNNABLE)).(ls := Append(m.ls, m.procs[i].queue, i))
            else SetProc(m, i, m.procs[i].(killed := true))
    decreases i - k
  {
    if k < i { KillsFirst(m, pid, k + 1, i); }
  }

  /** A process other than the one dispatched last waits above `level`. */
  predicate Above(m: Machine, j: nat, level: Level) {
    j < NPROC && j != m.last && m.procs[j].state.RUNNABLE? && m.procs[j].queue > level
  }

  /** The process dispatched last has not given the CPU up. */
  predicate OnCpu(m: Machine) { m.running || !m.kicked }

  /** It has not done so throughout a run. */
  predicate Stays(m: Machine, es: seq<Event>)
    requires Runs(m, es)
  {
    OnCpu(Run(m, es)) && (es == [] || Stays(m, es[..|es| - 1]))
  }

  /** Some event of the run has made a process runnable above `level`. */
  ghost predicate CameAbove(m: Machine, es: seq<Event>, level: Level)
    requires Runs(m, es)
  {
    es != [] &&
    (CameAbove(m, es[..|es| - 1], level)
     || exists j: nat {:trigger Above(Run(m, es), j, level)} ::
          Above(Run(m, es), j, level) && !Run(m, es[..|es| - 1]).procs[j].state.RUNNABLE?)
  }

  lemma {:induction false} WakeWaits(m: Machine, chan: nat, n: nat)
    requires n <= NPROC
    ensures var w := WakeUpTo(m, chan, n);
            && w.last == m.last && w.running == m.running && w.kicked == m.kicked
            && forall j: nat {:trigger w.procs[j]} :: j < NPROC && m.procs[j].state.RUNNABLE? ==>
               w.procs[j] == m.procs[j]
  {
    if n > 0 { WakeWaits(m, chan, n - 1); }
  }

  lemma {:induction false} KillWaits(m: Machine, pid: nat, i: nat)
    requires i <= NPROC
    ensures var w := KillFrom(m, pid, i);
            && w.last == m.last && w.running == m.running && w.kicked == m.kicked
            && forall j: nat {:trigger w.procs[j]} :: j < NPROC && m.procs[j].state.RUNNABLE? ==>
                 w.procs[j].state.RUNNABLE? && w.procs[j].queue == m.procs[j].queue
    decreases NPROC - i
  {
    if i < NPROC && m.procs[i].pid != pid { KillWaits(m, pid, i + 1); }
  }

  lemma BoostKicks(m: Machine)
    requires m.last < NPROC && !m.running
    ensures !OnCpu(BoostUpTo(m, NPROC))
  {
    BoostRequeues(m, NPROC);
  }

  /** As long as one process keeps the CPU, the others that wait go on waiting where they are. */
  lemma StepWaits(m: Machine, e: Event)
    requires Possible(m, e) && Inv(m) && OnCpu(m) && OnCpu(Step(m, e))
    ensures Step(m, e).last == m.last
    ensures forall j: nat {:trigger Step(m, e).procs[j]} :: j < NPROC && j != m.last && m.procs[j].state.RUNNABLE? ==>
              Step(m, e).procs[j].state.RUNNABLE? && Step(m, e).procs[j].queue == m.procs[j].queue
  {
    hide Placed, Slots, BoostUpTo;
    match e
    case Tick =>
      if m.running { BoostKicks(Charge(m.(time := m.time + 1)).(running := false)); }
    case Nice(inc) =>
      var nice := Clamp(m.procs[m.last].nice + inc);
      var m1 := SetProc(m, m.last, m.procs[m.last].(nice := nice, queue := Priority(nice), runtime := 0));
      BoostKicks(Charge(m1.(kicked := true)).(running := false));
    case Wakeup(chan) => WakeWaits(m, chan, NPROC);
    case Kill(pid) => KillWaits(m, pid, 0);
    case _ =>
  }

  /** Who waits above the level of a process that keeps the CPU: those that waited there at the
      start, and those made runnable there since. */
  lemma {:induction false} WaitingAbove(m: Machine, es: seq<Event>, level: Level)
    requires Inv(m) && Runs(m, es) && Stays(m, es)
    ensures Inv(Run(m, es)) && Run(m, es).last == m.last
    ensures (exists j: nat {:trigger Above(Run(m, es), j, level)} :: Above(Run(m, es), j, level))
            <==> (exists j: nat {:trigger Above(m, j, level)} :: Above(m, j, level)) || CameAbove(m, es, level)
  {
    hide Inv;
    if es != [] {
      var front, e := es[..|es| - 1], es[|es| - 1];
      WaitingAbove(m, front, level);
      var m1, m2 := Run(m, front), Run(m, es);
      assert OnCpu(m1);
      InvStep(m1, e);
      StepWaits(m1, e);
      assert m2 == Step(m1, e);
      if j: nat :| Above(m1, j, level) {
        assert Above(m2, j, level);
      }
      if j: nat :| Above(m2, j, level) && m1.procs[j].state.RUNNABLE? {
        assert Above(m1, j, level);
      }
    }
  }

  /** Rule 1 over runs.  A process is taken from its queue and keeps the CPU through the events `es`.
      When it is then dispatched again without a look at the queues, at a level no lower than before,
      rule 1 holds if and only if nothing has been made runnable above it meanwhile. */
  lemma RuleOneSinceDispatch(m: Machine, es: seq<Event>)
    requires Inv(m) && Enabled(m, Dispatch) && m.kicked
    ensures m.ls[Top(m.ls)][0] < NPROC
    ensures var m0 := Step(m, Dispatch);
            Runs(m0, es) && Stays(m0, es) && !Run(m0, es).kicked ==>
              var now := Run(m0, es);
              var level := now.procs[m0.last].queue;
              now.last == m0.last &&
              (level >= Top(m.ls) ==>
                 ((forall j: nat :: j < NPROC && now.procs[j].state.RUNNABLE? ==> now.procs[j].queue <= level)
                  <==> !CameAbove(m0, es, level)))
  {
    hide Inv;
    DispatchInv(m);
    var m0 := Step(m, Dispatch);
    if Runs(m0, es) && Stays(m0, es) && !Run(m0, es).kicked {
      var now := Run(m0, es);
      WaitingAbove(m0, es, now.procs[m0.last].queue);
      forall j: nat | j < NPROC && m.procs[j].state.RUNNABLE?
        ensures m.procs[j].queue <= Top(m.ls)
      {
        KickedDispatchIsHighest(m, j);
      }
      var level := now.procs[now.last].queue;
      if level >= Top(m.ls) {
        forall j: nat
          ensures !Above(m0, j, level)
        {
        }
        if j: nat :| j < NPROC && now.procs[j].state.RUNNABLE? && now.procs[j].queue > level {
          assert Above(now, j, level);
        }
      }
    }
  }

  /** What sys_nice does between boosts: called with a new level HIGH, the caller is charged a
      tick at once and queued at MEDIUM; otherwise it is in no queue and keeps the CPU. */
  lemma NiceBetweenBoosts(m: Machine, inc: int)
    requires Inv(m) && Enabled(m, Nice(inc)) && m.time % BOOST_PERIOD != 0
    ensures var m', i := Step(m, Nice(inc)), m.last;
            var level := Priority(m'.procs[i].nice);
            && m'.procs[i].nice == Clamp(m.procs[i].nice + inc)
            && (level == QUEUE_HIGH ==>
                  m'.kicked && m'.procs[i].queue == QUEUE_MEDIUM && m'.ls == Append(m.ls, QUEUE_MEDIUM, i))
            && (level != QUEUE_HIGH ==>
                  !m'.kicked && m'.procs[i].queue == level && m'.procs[i].runtime == 1 && m'.ls == m.ls
                    && !Queued(m'.ls, i))
  {
    assert Placed(m, m.last);
  }

  /** The runnable slots below `n` whose nice level is `q`, in slot order. */
  function RunnableAt(procs: Table, q: Level, n: nat): seq<nat>
    requires n <= NPROC
  {
    if n == 0 then []
    else RunnableAt(procs, q, n - 1) +
         (if procs[n - 1].state.RUNNABLE? && Priority(procs[n - 1].nice) == q then [n - 1] else [])
  }

  /** Rule 5, exactly: a boost returns the runnable processes to their nice levels in slot
      order, with fresh quanta, and leaves the level of every other process alone. */
  lemma {:induction false} BoostRebuildsQueues(m: Machine, n: nat, q: Level)
    requires m.last < NPROC && n <= NPROC
    ensures BoostUpTo(m, n).ls[q] == RunnableAt(m.procs, q, n)
    ensures forall i: nat :: i < NPROC && i < n && m.procs[i].state.RUNNABLE? ==>
              BoostUpTo(m, n).procs[i].queue == Priority(m.procs[i].nice) && BoostUpTo(m, n).procs[i].runtime == 0
    ensures forall i: nat :: i < NPROC && !m.procs[i].state.RUNNABLE? ==>
              BoostUpTo(m, n).procs[i].queue == m.procs[i].queue
  {
    hide Requeued, Slots, Priority;
    forall i: nat | i < NPROC
      ensures BoostUpTo(m, n).procs[i] == Boosted(m, n, i)
    {
      BoostEntry(m, n, i);
    }
    if n > 0 {
      BoostRebuildsQueues(m, n - 1, q);
      BoostEntry(m, n - 1, n - 1);
    }
  }

  lemma BoostEntry(m: Machine, n: nat, i: nat)
    requires m.last < NPROC && n <= NPROC && i < NPROC
    ensures BoostUpTo(m, n).procs[i] == Boosted(m, n, i)
  {
    hide BoostUpTo, Slots;
    BoostRequeues(m, n);
    assert Requeued(m, BoostUpTo(m, n), n, i);
  }

  lemma {:induction false} BackOfRunnable(procs: Table, q: Level, n: nat, i: nat)
    requires i < n <= NPROC && procs[i].state.RUNNABLE? && Priority(procs[i].nice) == q
    ensures i in RunnableAt(procs, q, n)
    ensures AtBack(RunnableAt(procs, q, n), i) <==>
              forall j: nat :: i < j < n && procs[j].state.RUNNABLE? ==> Priority(procs[j].nice) != q
  {
    if n - 1 > i {
      BackOfRunnable(procs, q, n - 1, i);
      assert procs[n - 1].state.RUNNABLE? && Priority(procs[n - 1].nice) == q ==> !AtBack(RunnableAt(procs, q, n), i);
    }
  }

  predicate AtBack(queue: seq<nat>, i: nat) { queue != [] && queue[|queue| - 1] == i }

  /** Rule 6, exactly: after nice the caller is in the queue for its new level only if a boost
      falls on the call, and at the back of it only if moreover no runnable process of that nice
      level has a higher slot. */
  lemma NiceQueuesAtNewLevel(m: Machine, inc: int)
    requires Inv(m) && Enabled(m, Nice(inc))
    ensures var m', i := Step(m, Nice(inc)), m.last;
            var level := Priority(m'.procs[i].nice);
            && m'.procs[i].nice == Clamp(m.procs[i].nice + inc)
            && (i in m'.ls[level] <==> m.time % BOOST_PERIOD == 0)
            && (AtBack(m'.ls[level], i) <==>
                  && m.time % BOOST_PERIOD == 0
                  && forall j: nat :: i < j < NPROC && m.procs[j].state.RUNNABLE? ==>
                     Priority(m.procs[j].nice) != level)
  {
    hide Slots;
    var i, nice := m.last, Clamp(m.procs[m.last].nice + inc);
    assert Placed(m, i);
    if m.time % BOOST_PERIOD == 0 {
      var m1 := SetProc(m, i, m.procs[i].(nice := nice, queue := Priority(nice), runtime := 0)).(kicked := true);
      var c := Charge(m1).(running := false);
      NiceAtBoost(c, i, Priority(nice));
      assert Step(m, Nice(inc)) == BoostUpTo(c, NPROC);
      assert forall j: nat :: i < j < NPROC ==> c.procs[j] == m.procs[j];
    } else {
      NiceBetweenBoosts(m, inc);
    }
  }

  lemma NiceAtBoost(c: Machine, i: nat, level: Level)
    requires c.last == i < NPROC && c.procs[i].state.RUNNABLE? && Priority(c.procs[i].nice) == level
    ensures var m' := BoostUpTo(c, NPROC);
            && m'.procs[i].nice == c.procs[i].nice && i in m'.ls[level]
            && (AtBack(m'.ls[level], i) <==>
                  forall j: nat :: i < j < NPROC && c.procs[j].state.RUNNABLE? ==> Priority(c.procs[j].nice) != level)
  {
    BoostRebuildsQueues(c, NPROC, level);
    BackOfRunnable(c.procs, level, NPROC, i);
    BoostRequeues(c, NPROC);
    assert Requeued(c, BoostUpTo(c, NPROC), NPROC, i);
  }

  /** Rule 5, as an equivalence: after a boost every process is at its nice level if and only if
      every process that is not runnable already was. */
  lemma BoostReachesAll(m: Machine)
    requires m.last < NPROC
    ensures (forall i: nat :: i < NPROC && !m.procs[i].state.UNUSED? ==> AtNiceLevel(BoostUpTo(m, NPROC).procs[i]))
            <==> forall i: nat :: i < NPROC && !m.procs[i].state.UNUSED? && !m.procs[i].state.RUNNABLE? ==>
              AtNiceLevel(m.procs[i])
  {
    var b := BoostUpTo(m, NPROC);
    BoostRequeues(m, NPROC);
    forall i: nat | i < NPROC
      ensures b.procs[i].state == m.procs[i].state
      ensures AtNiceLevel(b.procs[i]) <==> m.procs[i].state.RUNNABLE? || AtNiceLevel(m.procs[i])
    {
      assert Requeued(m, b, NPROC, i);
    }
  }

  predicate AtNiceLevel(p: Proc) { p.queue == Priority(p.nice) }

  // ----- runs from boot in which the rules fail -----

  lemma Extend(m: Machine, es: seq<Event>, e: Event)
    requires Runs(m, es) && Possible(Run(m, es), e)
    ensures Runs(m, es + [e]) && Run(m, es + [e]) == Step(Run(m, es), e)
  {
    assert (es + [e])[..|es|] == es;
  }

  function Idling(n: nat): seq<Event> { if n == 0 then [] else Idling(n - 1) + [Tick] }

  /** The clock runs while there is nothing to run. */
  lemma {:induction false} IdlingRuns(n: nat)
    ensures Runs(BOOTED, Idling(n)) && Run(BOOTED, Idling(n)) == BOOTED.(time := n)
  {
    if n > 0 {
      IdlingRuns(n - 1);
      Extend(BOOTED, Idling(n - 1), Tick);
    }
  }

  /** A process has been created and dispatched. */
  function Launch(i: nat, pid: nat): seq<Event> { [Alloc(i, pid), Ready(i), Dispatch] }

  /** Slot `i`, unused so far, is created and dispatched when the queues are empty. */
  lemma Launched(es: seq<Event>, i: nat, pid: nat)
    requires Runs(BOOTED, es) && i < NPROC
    requires var m := Run(BOOTED, es);
             m.procs[i] == FREE_PROC && m.ls == EMPTY_LISTS && m.kicked && !m.running
    ensures Runs(BOOTED, es + Launch(i, pid))
    ensures Run(BOOTED, es + Launch(i, pid)) ==
            Run(BOOTED, es).(procs := Run(BOOTED, es).procs[i := Proc(RUNNING, QUEUE_MEDIUM, 0, 0, 0, false, pid)],
                             last := i, running := true)
  {
    hide Runs, Run;
    var m := Run(BOOTED, es);
    Extend(BOOTED, es, Alloc(i, pid));
    Extend(BOOTED, es + [Alloc(i, pid)], Ready(i));
    var m2 := Run(BOOTED, es + [Alloc(i, pid)] + [Ready(i)]);
    OnlyOne(QUEUE_MEDIUM, i);
    assert m2.ls == Append(EMPTY_LISTS, QUEUE_MEDIUM, i);
    Extend(BOOTED, es + [Alloc(i, pid)] + [Ready(i)], Dispatch);
    assert es + Launch(i, pid) == es + [Alloc(i, pid)] + [Ready(i)] + [Dispatch];
    assert m2.procs == m.procs[i := Proc(RUNNABLE, QUEUE_MEDIUM, 0, 0, 0, false, pid)];
  }

  lemma OnlyOne(q: Level, i: nat)
    ensures var ls := Append(EMPTY_LISTS, q, i);
            ls != EMPTY_LISTS && Top(ls) == q && ls[q] == [i] && Pop(ls, q) == EMPTY_LISTS
  {
    var ls := Append(EMPTY_LISTS, q, i);
    assert ls[q] == [i];
    forall k | 0 <= k < 3
      ensures Pop(ls, q)[k] == EMPTY_LISTS[k]
    {
      assert EMPTY_LISTS[k] == [];
    }
    assert Pop(ls, q) == EMPTY_LISTS;
  }

  /** The table can become empty: init goes to sleep before it has forked.  Then the machine has
      no dispatch; what the code does is `Queue.IdleTable`. */
  lemma IdleIsReachable(pid: nat, chan: nat) returns (es: seq<Event>)
    ensures es == Launch(0, pid) + [Event.Sleep(chan)] && Runs(BOOTED, es)
    ensures var m := Run(BOOTED, es);
            m.kicked && !m.running && m.ls == EMPTY_LISTS && m.procs[0].state.SLEEPING? && !Enabled(m, Dispatch)
  {
    hide Runs, Run;
    EmptyRun();
    Launched([], 0, pid);
    assert [] + Launch(0, pid) == Launch(0, pid);
    Extend(BOOTED, Launch(0, pid), Event.Sleep(chan));
    es := Launch(0, pid) + [Event.Sleep(chan)];
  }

  lemma EmptyRun()
    ensures Runs(BOOTED, []) && Run(BOOTED, []) == BOOTED
  {
  }

  /** A process runs at MEDIUM between boosts; another is made ready, and the first calls nice with 19. */
  lemma RetainedAtLow(m: Machine)
    requires m.running && m.last == 0 && m.procs[0] == Proc(RUNNING, QUEUE_MEDIUM, 0, 0, 0, false, 1)
    requires m.procs[1] == FREE_PROC && m.time % BOOST_PERIOD != 0
    ensures Possible(m, Alloc(1, 2)) && Possible(Step(m, Alloc(1, 2)), Ready(1))
    ensures var m2 := Step(Step(m, Alloc(1, 2)), Ready(1));
            && Possible(m2, Nice(19))
            && var m3 := Step(m2, Nice(19));
               && Enabled(m3, Dispatch) && !m3.kicked && m3.last == 0 && m3.procs[0].queue == QUEUE_LOW
               && m3.procs[1].state.RUNNABLE? && m3.procs[1].queue == QUEUE_MEDIUM && Step(m3, Dispatch).last == 0
  {
    hide Append;
  }

  /** Rule 1 fails in a run from boot: the process in slot 0, at LOW, is dispatched again while
      the one in slot 1 is runnable at MEDIUM. */
  lemma RuleOneFails() returns (es: seq<Event>)
    ensures Runs(BOOTED, es)
    ensures var m := Run(BOOTED, es);
            && Enabled(m, Dispatch) && !m.kicked && m.last == 0 && m.procs[0].queue == QUEUE_LOW
            && m.procs[1].state.RUNNABLE? && m.procs[1].queue == QUEUE_MEDIUM && Step(m, Dispatch).last == 0
  {
    hide Runs, Run, Append;
    EmptyRun();
    Extend(BOOTED, [], Tick);
    Launched([] + [Tick], 0, 1);
    var e1 := [] + [Tick] + Launch(0, 1);
    RetainedAtLow(Run(BOOTED, e1));
    hide Step, Possible, Enabled;
    Extend(BOOTED, e1, Alloc(1, 2));
    Extend(BOOTED, e1 + [Alloc(1, 2)], Ready(1));
    Extend(BOOTED, e1 + [Alloc(1, 2)] + [Ready(1)], Nice(19));
    es := e1 + [Alloc(1, 2)] + [Ready(1)] + [Nice(19)];
  }

  /** Machine `m` at clock 59 with process `p` in slot 0, the last one dispatched. */
  function With(m: Machine, p: Proc, ls: Lists, running: bool): Machine {
    m.(procs := m.procs[0 := p], ls := ls, kicked := true, last := 0, running := running, time := 59)
  }

  /** It calls nice with -20. */
  lemma NiceOnce()
    ensures var m := With(BOOTED, Proc(RUNNING, QUEUE_MEDIUM, 0, 0, 0, false, 1), EMPTY_LISTS, true);
            && Possible(m, Nice(-20))
            && Step(m, Nice(-20)) == With(BOOTED, Proc(RUNNABLE, QUEUE_MEDIUM, -20, 0, 0, false, 1),
                                             Append(EMPTY_LISTS, QUEUE_MEDIUM, 0), false)
  {
    hide Append;
  }

  /** It is dispatched again and sleeps. */
  lemma RunAndSleep()
    ensures var m := With(BOOTED, Proc(RUNNABLE, QUEUE_MEDIUM, -20, 0, 0, false, 1),
            Append(EMPTY_LISTS, QUEUE_MEDIUM, 0),
                             false);
            && Possible(m, Dispatch) && Possible(Step(m, Dispatch), Event.Sleep(7))
            && Step(Step(m, Dispatch), Event.Sleep(7))
               == With(BOOTED, Proc(SLEEPING, QUEUE_MEDIUM, -20, 0, 7, false, 1), EMPTY_LISTS, false)
  {
    hide Append;
    OnlyOne(QUEUE_MEDIUM, 0);
  }

  /** A run at whose end the process in slot 0 sleeps at MEDIUM although its nice level is HIGH. */
  lemma SleeperBelowNice() returns (es: seq<Event>)
    ensures Runs(BOOTED, es)
    ensures Run(BOOTED, es) == With(BOOTED, Proc(SLEEPING, QUEUE_MEDIUM, -20, 0, 7, false, 1), EMPTY_LISTS, false)
  {
    hide Runs, Run, Step, Possible, Append;
    IdlingRuns(59);
    var e0 := Idling(59);
    Launched(e0, 0, 1);
    var e1 := e0 + Launch(0, 1);
    NiceOnce();
    RunAndSleep();
    Extend(BOOTED, e1, Nice(-20));
    Extend(BOOTED, e1 + [Nice(-20)], Dispatch);
    Extend(BOOTED, e1 + [Nice(-20)] + [Dispatch], Event.Sleep(7));
    es := e1 + [Nice(-20)] + [Dispatch] + [Event.Sleep(7)];
  }

  /** Rule 5 fails in a run from boot: a timer tick brings a boost, and that process stays at
      MEDIUM. */
  lemma RuleFiveFails() returns (es: seq<Event>)
    ensures Runs(BOOTED, es)
    ensures var m := Run(BOOTED, es);
            && Possible(m, Tick) && m.running && (m.time + 1) % BOOST_PERIOD == 0
            && var p := Step(m, Tick).procs[0];
               p.state.SLEEPING? && Priority(p.nice) == QUEUE_HIGH && p.queue == QUEUE_MEDIUM
  {
    hide Runs, Run, BoostUpTo;
    var e2 := SleeperBelowNice();
    Launched(e2, 1, 2);
    es := e2 + Launch(1, 2);
    var c := Charge(Run(BOOTED, es).(time := 60)).(running := false);
    BoostRequeues(c, NPROC);
    assert Requeued(c, BoostUpTo(c, NPROC), NPROC, 0);
  }

  // ----- rule 4: the allotment at a level -----

  /** Neither a boost, nor a nice call of `i`, nor `i` being created or collected. */
  predicate Undisturbed(m: Machine, e: Event, i: nat) {
    match e
    case Alloc(j, _) => j != i
    case Free(j) => j != i
    case Nice(_) => m.last != i && m.time % BOOST_PERIOD != 0
    case Tick => !m.running || (m.time + 1) % BOOST_PERIOD != 0
    case _ => true
  }

  predicate UndisturbedRun(m: Machine, es: seq<Event>, i: nat)
    requires Runs(m, es)
  {
    es == [] || (UndisturbedRun(m, es[..|es| - 1], i) && Undisturbed(Run(m, es[..|es| - 1]), es[|es| - 1], i))
  }

  /** The timer ticks that found `i` on the CPU. */
  function Ticks(m: Machine, es: seq<Event>, i: nat): nat
    requires Runs(m, es)
  {
    if es == [] then 0
    else
      var m' := Run(m, es[..|es| - 1]);
      Ticks(m, es[..|es| - 1], i) + (if es[|es| - 1].Tick? && m'.running && m'.last == i then 1 else 0)
  }

  /** Level and runtime after `t` more ticks. */
  function After(q: Level, r: nat, t: nat): (Level, nat) {
    if t == 0 then (q, r)
    else
      var (q', r') := After(q, r, t - 1);
      if r' + 1 >= Quantum(q') then (if q' > 0 then q' - 1 else 0, 0) else (q', r' + 1)
  }

  lemma WakeKeepsLevel(m: Machine, chan: nat, n: nat, i: nat)
    requires n <= NPROC && i < NPROC
    ensures var p := WakeUpTo(m, chan, n).procs[i]; p.queue == m.procs[i].queue && p.runtime == m.procs[i].runtime
  {
  }

  lemma KillKeepsLevel(m: Machine, pid: nat, k: nat, i: nat)
    requires k <= NPROC && i < NPROC
    ensures var p := KillFrom(m, pid, k).procs[i]; p.queue == m.procs[i].queue && p.runtime == m.procs[i].runtime
    decreases NPROC - k
  {
  }

  lemma LevelStep(m: Machine, e: Event, i: nat)
    requires Inv(m) && Possible(m, e) && i < NPROC && Undisturbed(m, e, i)
    ensures var p, p' := m.procs[i], Step(m, e).procs[i];
            (p'.queue, p'.runtime) == After(p.queue, p.runtime, if e.Tick? && m.running && m.last == i then 1 else 0)
  {
    hide Placed, Slots, Sane;
    match e
    case Wakeup(chan) => WakeKeepsLevel(m, chan, NPROC, i);
    case Kill(pid) => KillKeepsLevel(m, pid, 0, i);
    case _ =>
  }

  lemma AfterCompose(q: Level, r: nat, t: nat, k: nat)
    requires k <= 1
    ensures After(After(q, r, t).0, After(q, r, t).1, k) == After(q, r, t + k)
  {
    if k == 1 {
      assert After(After(q, r, t).0, After(q, r, t).1, 0) == After(q, r, t);
    }
  }

  /** However often the process sleeps, is woken or is overtaken in between, its level and
      runtime depend only on the number of ticks it has used. */
  lemma {:induction false} LevelCountsTicksOnly(m: Machine, es: seq<Event>, i: nat)
    requires Inv(m) && Runs(m, es) && i < NPROC && UndisturbedRun(m, es, i)
    ensures Inv(Run(m, es))
    ensures (Run(m, es).procs[i].queue, Run(m, es).procs[i].runtime)
            == After(m.procs[i].queue, m.procs[i].runtime, Ticks(m, es, i))
  {
    hide Inv, Enabled, Step, Undisturbed;
    if es != [] {
      var front, e := es[..|es| - 1], es[|es| - 1];
      LevelCountsTicksOnly(m, front, i);
      LevelStep(Run(m, front), e, i);
      InvStep(Run(m, front), e);
      AfterCompose(m.procs[i].queue, m.procs[i].runtime, Ticks(m, front, i), Ticks(m, es, i) - Ticks(m, front, i));
    }
  }

  lemma NextInRound(x: nat)
    ensures (x + 1) % 15 == if x % 15 + 1 >= 15 then 0 else x % 15 + 1
  {
  }

  /** From HIGH with a fresh quantum: one tick at HIGH, ten at MEDIUM, then LOW for good. */
  lemma {:induction false} Allotment(t: nat)
    ensures After(QUEUE_HIGH, 0, t) ==
            if t < 1 then (QUEUE_HIGH, 0) else if t < 11 then (QUEUE_MEDIUM, t - 1) else (QUEUE_LOW, (t - 11) % 15)
  {
    if t > 0 {
      Allotment(t - 1);
      if t > 11 {
        NextInRound(t - 12);
      }
    }
  }

  /** Rule 4 over whole runs. */
  lemma AllotmentIsUsedUp(m: Machine, es: seq<Event>, i: nat)
    requires Inv(m) && Runs(m, es) && i < NPROC && UndisturbedRun(m, es, i)
    requires m.procs[i].queue == QUEUE_HIGH && m.procs[i].runtime == 0
    ensures var t := Ticks(m, es, i);
            Run(m, es).procs[i].queue == if t < 1 then QUEUE_HIGH else if t < 11 then QUEUE_MEDIUM else QUEUE_LOW
  {
    LevelCountsTicksOnly(m, es, i);
    Allotment(Ticks(m, es, i));
  }
}
