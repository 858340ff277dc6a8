/** begin_op's reservation arithmetic: whether a logged write can be refused. */
module LogAdmission {
  import opened Common
  import opened LogSpec
  import opened LogMachine
  import opened LogProof

  /** What one outstanding operation has logged. */
  ghost function Mine(wrote: set<(nat, nat)>, op: nat): set<(nat, nat)> {
    set p | p in wrote && p.0 == op
  }

  /** The promise of every file system call: at most MAXOPBLOCKS different blocks. */
  ghost predicate Disciplined(s: State, e: Event) {
    e.Write? ==> |Mine(s.wrote + {(e.op, e.block)}, e.op)| <= MAXOPBLOCKS
  }

  ghost predicate DisciplinedRun(L: Layout, s: State, es: seq<Event>)
    requires Runs(L, s, es)
  {
    es == [] ||
    (DisciplinedRun(L, s, es[..|es| - 1]) && Disciplined(Run(L, s, es[..|es| - 1]), es[|es| - 1]))
  }

  /** The blocks in the log and the unused part of every outstanding reservation fit. */
  ghost predicate Reserved(s: State) {
    && |s.lh| + MAXOPBLOCKS * |s.active| - |s.wrote| <= LOGSIZE
    && (forall p :: p in s.wrote ==> p.0 in s.active)
    && (forall op :: op in s.active ==> |Mine(s.wrote, op)| <= MAXOPBLOCKS)
  }

  lemma SplitOff(wrote: set<(nat, nat)>, op: nat)
    ensures |wrote| == |Without(wrote, op)| + |Mine(wrote, op)|
    ensures forall o :: o != op ==> Mine(Without(wrote, op), o) == Mine(wrote, o)
  {
    assert wrote == Without(wrote, op) + Mine(wrote, op);
  }

  /** Together the outstanding operations have used no more than they reserved. */
  lemma {:induction false} UsedWithinReserved(active: set<nat>, wrote: set<(nat, nat)>)
    requires forall p :: p in wrote ==> p.0 in active
    requires forall op :: op in active ==> |Mine(wrote, op)| <= MAXOPBLOCKS
    ensures |wrote| <= MAXOPBLOCKS * |active|
  {
    if active == {} {
      assert wrote == {};
    } else {
      var op :| op in active;
      SplitOff(wrote, op);
      UsedWithinReserved(active - {op}, Without(wrote, op));
    }
  }

  lemma ReservedWrite(L: Layout, s: State, op: nat, b: nat, d: Block)
    requires Reserved(s) && op in s.active
    requires forall p :: p in s.wrote ==> p.1 in s.lh
    requires |Mine(s.wrote + {(op, b)}, op)| <= MAXOPBLOCKS
    ensures Reserved(LogWrite(s, op, b, d))
  {
    var wrote' := s.wrote + {(op, b)};
    assert forall o :: o != op ==> Mine(wrote', o) == Mine(s.wrote, o);
    if (op, b) in s.wrote { assert wrote' == s.wrote; }
  }

  lemma ReservedEnd(s: State, op: nat)
    requires Reserved(s) && op in s.active
    ensures Reserved(EndOp(s, op))
  {
    SplitOff(s.wrote, op);
  }

  lemma ReservedStep(L: Layout, s: State, e: Event)
    requires Inv(L, s) && Reserved(s) && Enabled(L, s, e) && Disciplined(s, e)
    ensures Reserved(Do(L, s, e))
  {
    hide PutHead, Pinned, Clean, Recovered, Reserved;
    match e
    case Write(op, b, d) => ReservedWrite(L, s, op, b, d);
    case End(op) => ReservedEnd(s, op);
    case _ => ReservedOther(L, s, e);
  }

  lemma ReservedOther(L: Layout, s: State, e: Event)
    requires Inv(L, s) && Reserved(s) && Enabled(L, s, e) && !e.Write? && !e.End?
    ensures Reserved(Do(L, s, e))
  {
    hide PutHead, Pinned, Clean, Recovered;
    if e.Begin? {
      assert s.next !in s.active ==> Mine(s.wrote, s.next) == {};
    }
    assert forall o: nat :: Mine({}, o) == {};
  }

  /** Over whole runs in which every operation keeps its promise, reservations never exceed
      the log. */
  lemma {:induction false} ReservationsFit(L: Layout, s: State, es: seq<Event>)
    requires Initial(L, s) && Runs(L, s, es) && DisciplinedRun(L, s, es)
    ensures Inv(L, Run(L, s, es)) && Reserved(Run(L, s, es))
  {
    CrashAtomicity(L, s, es);
    if es == [] {
      assert forall o: nat :: Mine({}, o) == {};
    } else {
      var front := es[..|es| - 1];
      ReservationsFit(L, s, front);
      ReservedStep(L, Run(L, s, front), es[|es| - 1]);
    }
  }

  /** When log_write refuses, given a log larger than LOGSIZE: exactly when the log holds
      LOGSIZE blocks, and then every outstanding operation has used its whole reservation,
      so that only a second write of a block the operation already logged can be refused. */
  lemma RefusedExactlyWhenFull(L: Layout, s: State, op: nat, b: nat)
    requires Inv(L, s) && Reserved(s) && op in s.active && LOGSIZE < L.size
    requires |Mine(s.wrote + {(op, b)}, op)| <= MAXOPBLOCKS
    ensures LogFull(L, s.lh) <==> |s.lh| == LOGSIZE
    ensures LogFull(L, s.lh) ==> (op, b) in s.wrote && |Mine(s.wrote, op)| == MAXOPBLOCKS
  {
    hide PutHead, Pinned, Clean, Recovered;
    SplitOff(s.wrote, op);
    UsedWithinReserved(s.active - {op}, Without(s.wrote, op));
    if (op, b) !in s.wrote {
      assert Mine(s.wrote + {(op, b)}, op) == Mine(s.wrote, op) + {(op, b)};
    }
  }

  // ----- two runs in which a promised write is refused -----

  /** The k-th of thirty writes to different blocks, ten by each of three operations. */
  function Fill(L: Layout, k: nat, d: Block): Event { Write(Writer(k), L.start + L.size + k, d) }

  function Writer(k: nat): nat { if k < 10 then 0 else if k < 20 then 1 else 2 }

  const OPENING := [ReadHead, ClearHead, Begin, Begin, Begin]

  function Filling(L: Layout, n: nat, d: Block): seq<Event> {
    if n == 0 then OPENING else Filling(L, n - 1, d) + [Fill(L, n - 1, d)]
  }

  ghost predicate Filled(L: Layout, s: State, n: nat) {
    && s.pc == Idle && s.active == {0, 1, 2} && Sane(L, s) && |s.lh| == n <= LOGSIZE
    && (forall i :: 0 <= i < n ==> s.lh[i] == L.start + L.size + i)
    && (forall p :: p in s.wrote ==> p.1 < L.start + L.size + n && 10 * p.0 < n)
    && (0 < n ==>
        && (Writer(n - 1), L.start + L.size + n - 1) in s.wrote
        && |Mine(s.wrote, Writer(n - 1))| <= n - 10 * Writer(n - 1))
  }

  lemma ExtendDisciplined(L: Layout, s: State, es: seq<Event>, e: Event)
    requires Runs(L, s, es) && DisciplinedRun(L, s, es)
    requires Enabled(L, Run(L, s, es), e) && Disciplined(Run(L, s, es), e)
    ensures Runs(L, s, es + [e]) && Run(L, s, es + [e]) == Do(L, Run(L, s, es), e) && DisciplinedRun(L, s, es + [e])
  {
    hide Enabled, Do, Disciplined;
    assert (es + [e])[..|es|] == es;
  }

  lemma EmptyRun(L: Layout, s: State)
    ensures Runs(L, s, []) && Run(L, s, []) == s && DisciplinedRun(L, s, [])
  {
  }

  /** An empty, idle log with the given operations outstanding. */
  ghost predicate Ready(L: Layout, s: State, active: set<nat>, k: nat) {
    s.pc == Idle && s.lh == [] && s.wrote == {} && s.next == k && Sane(L, s) && s.active == active
  }

  lemma ReadsEmptyHead(L: Layout, s: State)
    requires Initial(L, s) && HeadBlocks(s.disk[L.start]) == []
    ensures Enabled(L, s, ReadHead) && Disciplined(s, ReadHead)
    ensures var s1 := Do(L, s, ReadHead);
            Sane(L, s1) && s1.pc == Recovering(0) && s1.lh == [] && s1.active == {} && s1.wrote == {} && s1.next == 0
  {
    hide Recovered, PutHead, HeadBlocks;
  }

  lemma ClearsHead(L: Layout, s: State)
    requires Sane(L, s) && s.pc == Recovering(0) && s.lh == [] && s.active == {} && s.wrote == {} && s.next == 0
    ensures Enabled(L, s, ClearHead) && Disciplined(s, ClearHead) && Ready(L, Do(L, s, ClearHead), {}, 0)
  {
    hide Recovered, PutHead, HeadBlocks;
  }

  /** A clean log is recovered in two steps. */
  lemma ResetRuns(L: Layout, s: State)
    requires Initial(L, s) && HeadBlocks(s.disk[L.start]) == []
    ensures var es := [ReadHead, ClearHead];
            Runs(L, s, es) && DisciplinedRun(L, s, es) && Ready(L, Run(L, s, es), {}, 0)
  {
    hide Recovered, PutHead, HeadBlocks, Runs, Run, DisciplinedRun, Enabled, Do, Disciplined, Initial, Ready, Sane;
    EmptyRun(L, s);
    ReadsEmptyHead(L, s);
    ExtendDisciplined(L, s, [], ReadHead);
    assert [] + [ReadHead] == [ReadHead];
    ClearsHead(L, Do(L, s, ReadHead));
    ExtendDisciplined(L, s, [ReadHead], ClearHead);
    assert [ReadHead] + [ClearHead] == [ReadHead, ClearHead];
  }

  lemma BeginsNext(L: Layout, s: State, active: set<nat>, k: nat)
    requires Ready(L, s, active, k) && |active| < 3
    ensures Enabled(L, s, Begin) && Disciplined(s, Begin) && Ready(L, Do(L, s, Begin), active + {k}, k + 1)
  {
  }

  lemma Opening(L: Layout, s: State)
    requires Initial(L, s) && HeadBlocks(s.disk[L.start]) == []
    ensures Runs(L, s, OPENING) && DisciplinedRun(L, s, OPENING) && Filled(L, Run(L, s, OPENING), 0)
  {
    hide HeadBlocks, HeadOk, Initial, Recovered, PutHead, Runs, Run, DisciplinedRun, Enabled, Do, Disciplined, Sane;
    ResetRuns(L, s);
    var e2, e3, e4 := [ReadHead, ClearHead], [ReadHead, ClearHead, Begin], [ReadHead, ClearHead, Begin, Begin];
    assert e2 + [Begin] == e3 && e3 + [Begin] == e4 && e4 + [Begin] == OPENING;
    BeginsNext(L, Run(L, s, e2), {}, 0);
    ExtendDisciplined(L, s, e2, Begin);
    BeginsNext(L, Run(L, s, e3), {} + {0}, 1);
    ExtendDisciplined(L, s, e3, Begin);
    BeginsNext(L, Run(L, s, e4), {} + {0} + {1}, 2);
    assert {} + {0} + {1} + {2} == {0, 1, 2};
    ExtendDisciplined(L, s, e4, Begin);
  }

  lemma FillCounts(wrote: set<(nat, nat)>, n: nat, p: (nat, nat))
    requires n < 30 && p.0 == Writer(n) && forall q :: q in wrote ==> 10 * q.0 < n
    requires 0 < n ==> |Mine(wrote, Writer(n - 1))| <= n - 10 * Writer(n - 1)
    ensures |Mine(wrote + {p}, p.0)| <= n + 1 - 10 * p.0
  {
    assert Mine(wrote + {p}, p.0) == Mine(wrote, p.0) + {p};
    if n == 0 || p.0 != Writer(n - 1) {
      assert Mine(wrote, p.0) == {};
    }
  }

  lemma FillKeeps(L: Layout, s: State, n: nat, d: Block)
    requires Filled(L, s, n) && n < LOGSIZE && n < L.size - 1 && L.start + L.size + LOGSIZE <= L.total
    ensures Filled(L, LogWrite(s, Writer(n), L.start + L.size + n, d), n + 1)
  {
    FillCounts(s.wrote, n, (Writer(n), L.start + L.size + n));
  }

  lemma FillOne(L: Layout, s: State, n: nat, d: Block)
    requires Filled(L, s, n) && n < LOGSIZE && n < L.size - 1 && L.start + L.size + LOGSIZE <= L.total
    ensures Enabled(L, s, Fill(L, n, d)) && Disciplined(s, Fill(L, n, d)) && Filled(L, Do(L, s, Fill(L, n, d)), n + 1)
  {
    hide LogWrite;
    FillCounts(s.wrote, n, (Writer(n), L.start + L.size + n));
    FillKeeps(L, s, n, d);
  }

  lemma {:induction false} FillingRuns(L: Layout, s: State, n: nat, d: Block)
    requires Initial(L, s) && HeadBlocks(s.disk[L.start]) == [] && L.start + L.size + LOGSIZE <= L.total
    requires n <= LOGSIZE && n < L.size
    ensures var es := Filling(L, n, d);
            Runs(L, s, es) && DisciplinedRun(L, s, es) && Filled(L, Run(L, s, es), n)
  {
    hide Enabled, Do, Filled, Disciplined, Initial, Runs, Run, DisciplinedRun;
    if n == 0 {
      Opening(L, s);
    } else {
      FillingRuns(L, s, n - 1, d);
      FillOne(L, Run(L, s, Filling(L, n - 1, d)), n - 1, d);
      ExtendDisciplined(L, s, Filling(L, n - 1, d), Fill(L, n - 1, d));
    }
  }

  /** However large the log, log_write's capacity test precedes its absorption loop: from
      any disk with a clean log there is a disciplined run after which an operation is
      refused a second write of a block that is already in the log. */
  lemma AbsorbedWriteRefused(L: Layout, s: State, d: Block) returns (es: seq<Event>)
    requires Initial(L, s) && HeadBlocks(s.disk[L.start]) == []
    requires LOGSIZE < L.size && L.start + L.size + LOGSIZE <= L.total
    ensures Runs(L, s, es) && DisciplinedRun(L, s, es)
    ensures var s', w := Run(L, s, es), Fill(L, LOGSIZE - 1, d);
            w.op in s'.active && Disciplined(s', w) && w.block in s'.lh && LogFull(L, s'.lh)
  {
    es := Filling(L, LOGSIZE, d);
    FillingRuns(L, s, LOGSIZE, d);
    var s', w := Run(L, s, es), Fill(L, LOGSIZE - 1, d);
    assert s'.wrote + {(w.op, w.block)} == s'.wrote;
    assert s'.lh[LOGSIZE - 1] == w.block;
  }

  /** A disciplined write of a block that is new to the log is refused. */
  ghost predicate NewRefused(L: Layout, s: State, op: nat, b: nat, d: Block) {
    && s.pc == Idle && op in s.active && L.Home(b) && b !in s.lh && Disciplined(s, Write(op, b, d)) && LogFull(L, s.lh)
  }

  /** With a log of LOGSIZE blocks or fewer, header included, there is a disciplined run after
      which a block that is new to the log is refused. */
  lemma SmallLogRefuses(L: Layout, s: State, d: Block) returns (es: seq<Event>, op: nat, b: nat)
    requires Initial(L, s) && HeadBlocks(s.disk[L.start]) == []
    requires L.size <= LOGSIZE && L.start + L.size + LOGSIZE <= L.total
    ensures Runs(L, s, es) && DisciplinedRun(L, s, es) && NewRefused(L, Run(L, s, es), op, b, d)
  {
    var n := L.size - 1;
    es := Filling(L, n, d);
    FillingRuns(L, s, n, d);
    op, b := Writer(n), L.start + L.size + n;
    var s' := Run(L, s, es);
    FillCounts(s'.wrote, n, (op, b));
  }

  /** A log larger than LOGSIZE refuses no new block of a disciplined operation. */
  lemma LargeLogAccepts(L: Layout, s: State, es: seq<Event>, op: nat, b: nat, d: Block)
    requires Initial(L, s) && LOGSIZE < L.size && Runs(L, s, es) && DisciplinedRun(L, s, es)
    ensures !NewRefused(L, Run(L, s, es), op, b, d)
  {
    hide Inv, Reserved, Initial;
    ReservationsFit(L, s, es);
    var s' := Run(L, s, es);
    if NewRefused(L, s', op, b, d) {
      RefusedExactlyWhenFull(L, s', op, b);
      LoggedIsListed(L, s', op, b);
    }
  }

  lemma LoggedIsListed(L: Layout, s: State, op: nat, b: nat)
    requires Inv(L, s) && s.pc == Idle && (op, b) in s.wrote
    ensures b in s.lh
  {
    hide Clean, DiskOk, ListOk, HeadBlocks;
  }

  /** From a disk with a clean log and room for its blocks, over all disciplined runs: no block
      that is new to the log is ever refused if and only if the log has more than LOGSIZE
      blocks.  mkfs gives it LOGSIZE (mkfs.c:25). */
  lemma NewBlocksFitExactly(L: Layout, s: State, d: Block)
    requires Initial(L, s) && HeadBlocks(s.disk[L.start]) == [] && L.start + L.size + LOGSIZE <= L.total
    ensures (forall es: seq<Event>, op: nat, b: nat ::
               Runs(L, s, es) && DisciplinedRun(L, s, es) ==> !NewRefused(L, Run(L, s, es), op, b, d))
            <==> LOGSIZE < L.size
  {
    hide Initial, Runs, DisciplinedRun, NewRefused, Run;
    if LOGSIZE < L.size {
      forall es: seq<Event>, op: nat, b: nat | Runs(L, s, es) && DisciplinedRun(L, s, es)
        ensures !NewRefused(L, Run(L, s, es), op, b, d)
      {
        LargeLogAccepts(L, s, es, op, b, d);
      }
    } else {
      var es, op, b := SmallLogRefuses(L, s, d);
      assert NewRefused(L, Run(L, s, es), op, b, d);
    }
  }
}
