/** The scheduling half of proc.c: the process table and the queue table updated in place.
    Every method is one event of the machine in Mlfq. */
module ProcTable {
  import opened Queue
  import opened Mlfq

  const DEFAULT_PASS: nat := 1

  class Scheduler {
    const proc: array<Proc>
    const qtable: array<QEntry>
    var kicked: bool    // p_kicked
    var last: nat       // scheduler()'s local p; NPROC before the first dispatch
    var running: bool   // c->proc is set
    var time: nat
    ghost var ls: Lists

    ghost predicate Shape()
      reads this, proc, qtable
    {
      proc.Length == NPROC && qtable.Length == QTABLE_SIZE && Rep(qtable[..], ls)
    }

    ghost function Now(): Machine
      reads this, proc, qtable
      requires Shape()
    {
      Machine(proc[..], ls, kicked, last, running, time)
    }

    ghost predicate Valid()
      reads this, proc, qtable
    {
      Shape() && Inv(Now())
    }

    /** The kernel's zeroed tables after procinit. */
    constructor ()
      ensures Valid() && Now() == BOOTED && fresh(proc) && fresh(qtable)
    {
      proc := new Proc[NPROC](_ => FREE_PROC);
      qtable := new QEntry[QTABLE_SIZE](_ => QEntry(0, 0, 0));
      kicked, last, running, time := true, NPROC, false, 0;
      ls := EMPTY_LISTS;
      new;
      Initialize(qtable);
      BootInv();
      assert proc[..] == BOOTED.procs;
    }

    /** add_to_queue. */
    method AddToQueue(i: nat)
      requires Shape() && i < NPROC && !Queued(ls, i)
      modifies qtable, this`ls
      ensures Shape() && Now() == old(Now()).(ls := Append(old(ls), proc[i].queue, i))
    {
      hide Rep, Queued;
      EnqueueBack(qtable, proc[i].queue, i, DEFAULT_PASS, ls);
      ls := Append(ls, proc[i].queue, i);
    }

    method MakeReady(i: nat)
      requires Shape() && i < NPROC && !Queued(ls, i)
      modifies proc, qtable, this`ls
      ensures Shape() && Now() == MakeRunnable(old(Now()), i)
    {
      hide Rep, Queued;
      proc[i] := proc[i].(state := RUNNABLE);
      AddToQueue(i);
    }

    /** A process that is not runnable is in no queue. */
    lemma Unqueued(i: nat)
      requires Valid() && i < NPROC && !proc[i].state.RUNNABLE?
      ensures !Queued(ls, i)
    {
      assert Placed(Now(), i);
      assert Now().procs[i] == proc[i];
    }

    /** allocproc: the first unused slot.  `memory` says whether a trapframe and a page table can
        be had; if not, the slot is freed again and allocproc returns 0. */
    method AllocProc(pid: nat, memory: bool) returns (i: nat, ghost k: nat)
      requires Valid()
      modifies proc
      ensures Valid() && i == (if memory then k else NPROC) && k <= NPROC
      ensures forall j :: 0 <= j < k ==> !old(proc[j]).state.UNUSED?
      ensures k == NPROC ==> Now() == old(Now())
      ensures k < NPROC ==> Enabled(old(Now()), Alloc(k, pid))
      ensures k < NPROC ==>
                var m := Step(old(Now()), Alloc(k, pid));
                if memory then Now() == m else Enabled(m, Free(k)) && Now() == Step(m, Free(k))
      ensures k < NPROC ==>
                proc[..] == old(proc[..])[k := if !memory then FREE_PROC
                                               else old(proc[k]).(state := USED, pid := pid,
                                                                  queue := Priority(old(proc[k]).nice))]
    {
      hide Rep, Inv;
      i := 0;
      while i < NPROC && !proc[i].state.UNUSED?
        invariant i <= NPROC && Shape() && Now() == old(Now())
        invariant forall j :: 0 <= j < i ==> !old(proc[j]).state.UNUSED?
      {
        i := i + 1;
      }
      k := i;
      if i == NPROC {
        return;
      }
      SaneAt(Now(), i);
      SetProcInv(Now(), i, proc[i].(state := USED, pid := pid));
      InvStep(Now(), Alloc(i, pid));
      proc[i] := proc[i].(state := USED, pid := pid);
      assert Now().procs == old(Now()).procs[i := proc[i]];
      if !memory {
        FreeProc(i);
        assert Now() == Step(Step(old(Now()), Alloc(i, pid)), Free(i));
        return NPROC, k;
      }
      proc[i] := proc[i].(queue := Priority(proc[i].nice));
      assert Now() == Step(old(Now()), Alloc(i, pid));
    }

    method FreeProc(i: nat)
      requires Valid() && Enabled(Now(), Free(i))
      modifies proc
      ensures Valid() && Now() == Step(old(Now()), Free(i))
      ensures proc[..] == old(proc[..])[i := FREE_PROC]
    {
      hide Rep, Inv;
      InvStep(Now(), Free(i));
      proc[i] := FREE_PROC;
    }

    /** The end of fork and of userinit. */
    method StartProc(i: nat)
      requires Valid() && Enabled(Now(), Ready(i))
      modifies proc, qtable, this`ls
      ensures Valid() && Now() == Step(old(Now()), Ready(i))
      ensures proc[..] == old(proc[..])[i := old(proc[i]).(state := RUNNABLE)]
      ensures forall q: Level :: ls[q] == if q == old(proc[i]).queue then old(ls)[q] + [i] else old(ls)[q]
    {
      hide Rep, Inv;
      InvStep(Now(), Ready(i));
      Unqueued(i);
      MakeReady(i);
    }

    /** One round of scheduler(), up to the switch to the process.  `ok` says whether there was a
        process to dispatch; if there was none, a stray slot is marked as running, whatever its
        state, unless dequeue has already left the table. */
    method Schedule() returns (r: Dequeued, ghost ok: bool)
      requires Valid() && !running
      modifies this, proc, qtable
      ensures ok <==> Enabled(old(Now()), Dispatch)
      ensures ok ==> Valid() && Possible(old(Now()), Dispatch) && Now() == Step(old(Now()), Dispatch)
      ensures !ok ==> old(kicked) && old(ls) == EMPTY_LISTS && r == Strays(old(qtable[..]), NPROC - 2)
      ensures !ok && r.Took? ==>
                r.x < NPROC && last == r.x && proc[..] == old(proc[..])[r.x := old(proc[r.x]).(state := RUNNING)]
      ensures !ok && !r.Took? ==> proc[..] == old(proc[..])
    {
      hide Rep, Inv;
      NextFacts();
      ok := Enabled(Now(), Dispatch);
      if ok { InvStep(Now(), Dispatch); }
      r := Took(last);
      if kicked {
        r := Dequeue(qtable, ls);
        if !r.Took? {
          return;
        }
        last := r.x;
        ls := if ls != EMPTY_LISTS then Pop(ls, Top(ls)) else ls;
      }
      proc[last] := proc[last].(state := RUNNING);
      running := true;
      kicked := true;
    }

    lemma NextFacts()
      requires Valid() && !running
      ensures !kicked ==> last < NPROC && Enabled(Now(), Dispatch)
      ensures kicked ==> (Enabled(Now(), Dispatch) <==> ls != EMPTY_LISTS)
    {
    }

    /** yield() before the boost: the tick is charged. */
    method ChargeTick()
      requires Valid() && running
      modifies this, proc, qtable
      ensures Valid() && Now() == Charge(old(Now())).(running := false)
    {
      hide Rep;
      ghost var c := Charge(Now()).(running := false);
      ChargeInv(Now());
      Unqueued(last);
      hide Inv;
      var i := last;
      proc[i] := proc[i].(runtime := proc[i].runtime + 1);
      proc[i] := proc[i].(state := RUNNABLE);
      if proc[i].runtime >= Quantum(proc[i].queue) {
        proc[i] := proc[i].(queue := if proc[i].queue > 0 then proc[i].queue - 1 else 0);
        proc[i] := proc[i].(runtime := 0);
        AddToQueue(i);
      } else {
        kicked := false;
      }
      running := false;
      assert Now() == c;
    }

    /** The priority boost in yield(). */
    method Boost()
      requires Valid() && !running && last < NPROC
      modifies this, proc, qtable
      ensures Valid() && Now() == BoostUpTo(old(Now()), NPROC)
    {
      hide Rep, Inv, Requeued, Slots;
      ghost var c := Now();
      BoostInv(c);
      Initialize(qtable);
      ls := EMPTY_LISTS;
      proc[last] := proc[last].(runtime := 0);
      kicked := true;
      var i := 0;
      while i < NPROC
        invariant i <= NPROC && Shape() && Now() == BoostUpTo(c, i) && last == c.last
      {
        BoostRequeues(c, i);
        NotYetRequeued(c, i);
        if proc[i].state.RUNNABLE? {
          proc[i] := proc[i].(queue := Priority(proc[i].nice));
          proc[i] := proc[i].(runtime := 0);
          AddToQueue(i);
        }
        i := i + 1;
      }
    }

    method YieldCpu()
      requires Valid() && running
      modifies this, proc, qtable
      ensures Valid() && Now() == Yield(old(Now()))
    {
      hide Rep, Inv, BoostUpTo;
      RunningFacts();
      ChargeTick();
      if time % BOOST_PERIOD == 0 {
        Boost();
      }
    }

    lemma RunningFacts()
      requires Valid() && running
      ensures last < NPROC
    {
    }

    /** A timer interrupt, from user or kernel mode. */
    method TimerTick()
      requires Valid()
      modifies this, proc, qtable
      ensures Valid() && Enabled(old(Now()), Tick) && Now() == Step(old(Now()), Tick)
      ensures time == old(time) + 1 && (!old(running) ==> Now() == old(Now()).(time := time))
    {
      hide Rep, Yield;
      TimeInv(Now(), time + 1);
      time := time + 1;
      if running {
        RunningFacts();
        YieldKeeps(Now(), last);
        YieldCpu();
      }
    }

    method SysNice(inc: int) returns (nice: int)
      requires Valid() && running
      modifies this, proc, qtable
      ensures Valid() && Enabled(old(Now()), Nice(inc)) && Now() == Step(old(Now()), Nice(inc))
      ensures old(last) < NPROC && nice == proc[old(last)].nice && NICE_MIN <= nice <= NICE_MAX
      ensures var want := old(proc[last]).nice + inc;
              && (NICE_MIN <= want <= NICE_MAX ==> nice == want)
              && (want > NICE_MAX ==> nice == NICE_MAX) && (want < NICE_MIN ==> nice == NICE_MIN)
    {
      hide Rep, Yield;
      var i := last;
      ghost var n := Clamp(proc[i].nice + inc);
      ghost var p := proc[i].(nice := n, queue := Priority(n), runtime := 0);
      SetProcInv(Now(), i, p);
      proc[i] := proc[i].(nice := Clamp(proc[i].nice + inc));
      proc[i] := proc[i].(queue := Priority(proc[i].nice));
      proc[i] := proc[i].(runtime := 0);
      kicked := true;
      assert proc[..] == old(proc[..])[i := p];
      YieldKeeps(Now(), i);
      YieldCpu();
      nice := proc[i].nice;
    }

    method SleepOn(chan: nat)
      requires Valid() && running
      modifies this, proc
      ensures Valid() && Enabled(old(Now()), Event.Sleep(chan)) && Now() == Step(old(Now()), Event.Sleep(chan))
      ensures old(last) < NPROC && last == old(last) && !running && ls == old(ls)
      ensures proc[..] == old(proc[..])[last := old(proc[last]).(state := SLEEPING, chan := chan)]
    {
      hide Rep;
      InvStep(Now(), Event.Sleep(chan));
      proc[last] := proc[last].(chan := chan);
      proc[last] := proc[last].(state := SLEEPING);
      assert proc[..] == old(proc[..])[last := old(proc[last]).(state := SLEEPING, chan := chan)];
      running := false;
    }

    method ExitProc()
      requires Valid() && running
      modifies this, proc
      ensures Valid() && Enabled(old(Now()), Event.Exit) && Now() == Step(old(Now()), Event.Exit)
      ensures old(last) < NPROC && last == old(last) && !running && ls == old(ls)
      ensures proc[..] == old(proc[..])[last := old(proc[last]).(state := ZOMBIE)]
    {
      hide Rep;
      InvStep(Now(), Event.Exit);
      proc[last] := proc[last].(state := ZOMBIE);
      running := false;
    }

    /** wakeup: every process but the caller that sleeps on the channel becomes runnable, and is queued
        at its level; no other process changes. */
    method WakeUp(chan: nat)
      requires Valid()
      modifies this, proc, qtable
      ensures Valid() && Now() == Step(old(Now()), Event.Wakeup(chan))
      ensures last == old(last) && running == old(running) && kicked == old(kicked) && time == old(time)
      ensures forall i :: 0 <= i < NPROC ==>
                proc[i] == if old(proc[i]).state == SLEEPING && old(proc[i]).chan == chan && !(running && i == last)
                           then old(proc[i]).(state := RUNNABLE) else old(proc[i])
      ensures forall q: Level ::
                Followed(old(ls)[q], ls[q], set i: nat | i < NPROC && proc[i] != old(proc[i]) && proc[i].queue == q)
    {
      hide Rep, Inv, Followed;
      ghost var m := Now();
      var i := 0;
      while i < NPROC
        invariant i <= NPROC && Valid() && Now() == WakeUpTo(m, chan, i)
      {
        WakeInv(m, chan, i + 1);
        if !(running && i == last) && proc[i].state.SLEEPING? && proc[i].chan == chan {
          Unqueued(i);
          MakeReady(i);
        }
        i := i + 1;
      }
      WakesSleepers(m, chan, NPROC);
      hide WakeUpTo;
      assert forall i :: 0 <= i < NPROC ==> proc[i] == Now().procs[i] && old(proc[i]) == m.procs[i];
      forall q: Level
        ensures Followed(old(ls)[q], ls[q], set i: nat | i < NPROC && proc[i] != old(proc[i]) && proc[i].queue == q)
      {
        assert SleepersAt(m, chan, q, NPROC)
               == set i: nat | i < NPROC && proc[i] != old(proc[i]) && proc[i].queue == q;
      }
    }

    /** kill: the first process with that pid is marked, and if it sleeps it becomes runnable at the back
        of the queue for its level; no other process changes. */
    method KillPid(pid: nat) returns (found: bool)
      requires Valid()
      modifies this, proc, qtable
      ensures Valid() && Now() == Step(old(Now()), Event.Kill(pid))
      ensures found <==> exists i :: 0 <= i < NPROC && old(proc[i]).pid == pid
      ensures !found ==> Now() == old(Now())
      ensures forall i :: 0 <= i < NPROC && old(proc[i]).pid == pid
                          && (forall j :: 0 <= j < i ==> old(proc[j]).pid != pid) ==>
                var sleeps := old(proc[i]).state == SLEEPING;
                && proc[..] == old(proc[..])[i := old(proc[i]).(killed := true,
                                                  state := if sleeps then RUNNABLE else old(proc[i]).state)]
                && forall q: Level ::
                     ls[q] == if sleeps && q == old(proc[i]).queue then old(ls)[q] + [i] else old(ls)[q]
    {
      hide Rep, Inv;
      ghost var m := Now();
      KillInv(m, pid, 0);
      var i := 0;
      while i < NPROC
        invariant i <= NPROC && Shape() && Now() == m && Inv(m)
        invariant KillFrom(m, pid, 0) == KillFrom(m, pid, i)
        invariant forall j :: 0 <= j < i ==> m.procs[j].pid != pid
      {
        if proc[i].pid == pid {
          assert m.procs[i].pid == pid;
          if proc[i].state.SLEEPING? { Unqueued(i); }
          proc[i] := proc[i].(killed := true);
          if proc[i].state.SLEEPING? {
            MakeReady(i);
          }
          return true;
        }
        i := i + 1;
      }
      found := false;
    }
  }

  /** The slot the boost is about to treat is in no queue yet. */
  lemma NotYetRequeued(m: Machine, i: nat)
    requires m.last < NPROC && i < NPROC && Boosting(m, BoostUpTo(m, i), i)
    ensures !Queued(BoostUpTo(m, i).ls, i)
  {
    assert Requeued(m, BoostUpTo(m, i), i, i);
  }
}
