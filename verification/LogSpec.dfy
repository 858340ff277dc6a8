/** What the log promises to the file system above it: a store of home blocks on which
    operations write, and whose durable part changes only by whole groups of finished
    operations.  It is a function of the events alone; it knows nothing of disks, caches
    or headers. */
module LogSpec {

  const BWORDS: nat := 256   // BSIZE / sizeof(int)

  /** A disk block, seen as the 32-bit words it holds. */
  type Block = b: seq<nat> | |b| == BWORDS witness seq(BWORDS, _ => 0)

  /** One logged write of operation `op`. */
  datatype Update = Update(op: nat, block: nat, data: Block)

  /** Everything that can happen, one atomic step each.  Only five of these are visible
      to the specification. */
  datatype Event =
    | Load(block: nat)                          // bread of a block that is not cached
    | Evict(block: nat)                         // bget recycles an unreferenced buffer
    | Begin                                     // begin_op admits an operation
    | Write(op: nat, block: nat, data: Block)   // buffer modified, then log_write
    | End(op: nat)                              // end_op
    | EnterCommit                               // commit() looks at lh.n
    | CopyToLog                                 // one iteration of write_log
    | CommitHead                                // write_head with lh.n > 0
    | Install                                   // one iteration of install_trans(0)
    | ClearHead                                 // lh.n = 0 and the header is written again
    | Reopen                                    // committing = 0
    | Crash
    | ReadHead                                  // recovery: read_head
    | Replay                                    // recovery: one iteration of install_trans(1)

  datatype Spec = Spec(
    committed: seq<Update>,   // updates that survive a crash, in order
    pending: seq<Update>,     // updates since the last commit
    issued: seq<Update>,      // every update ever made
    active: set<nat>,         // operations between begin_op and end_op
    next: nat)                // identifier of the next operation

  const INITIAL := Spec([], [], [], {}, 0)

  function SpecStep(sp: Spec, e: Event): Spec {
    match e
    case Begin => sp.(active := sp.active + {sp.next}, next := sp.next + 1)
    case Write(op, b, d) =>
      sp.(pending := sp.pending + [Update(op, b, d)], issued := sp.issued + [Update(op, b, d)])
    case End(op) => sp.(active := sp.active - {op})
    case CommitHead => sp.(committed := sp.committed + sp.pending, pending := [])
    case Crash => sp.(pending := [], active := {})
    case _ => sp
  }

  /** When the specification allows an event: writers are active operations, and a group
      becomes durable only when no operation is active. */
  predicate Allowed(sp: Spec, e: Event) {
    match e
    case Write(op, _, _) => op in sp.active
    case End(op) => op in sp.active
    case CommitHead => sp.active == {}
    case _ => true
  }

  function SpecRun(es: seq<Event>): Spec {
    if es == [] then INITIAL else SpecStep(SpecRun(es[..|es| - 1]), es[|es| - 1])
  }

  predicate SpecRuns(es: seq<Event>) {
    es == [] || (SpecRuns(es[..|es| - 1]) && Allowed(SpecRun(es[..|es| - 1]), es[|es| - 1]))
  }

  /** The updates made by one operation. */
  function Of(us: seq<Update>, op: nat): seq<Update> {
    if us == [] then []
    else Of(us[..|us| - 1], op) + (if us[|us| - 1].op == op then [us[|us| - 1]] else [])
  }

  lemma OfConcat(a: seq<Update>, b: seq<Update>, op: nat)
    ensures Of(a + b, op) == Of(a, op) + Of(b, op)
  {
    if b == [] {
      assert a + b == a;
    } else {
      var b' := b[..|b| - 1];
      assert (a + b)[..|a + b| - 1] == a + b';
      OfConcat(a, b', op);
    }
  }

  /** All or nothing, for one operation: while it is active none of its updates is durable;
      afterwards its updates are durable in full, waiting in full, or lost in full. */
  predicate AllOrNothing(sp: Spec, op: nat) {
    var durable, waiting, all := Of(sp.committed, op), Of(sp.pending, op), Of(sp.issued, op);
    && (op in sp.active ==> durable == [] && waiting == all)
    && (op !in sp.active ==>
        (durable == [] && waiting == []) || (durable == [] && waiting == all) || (durable == all && waiting == []))
    && (op >= sp.next ==> op !in sp.active && all == [])
  }

  lemma AllOrNothingStep(sp: Spec, e: Event, op: nat)
    requires AllOrNothing(sp, op) && Allowed(sp, e)
    ensures AllOrNothing(SpecStep(sp, e), op)
  {
    match e
    case Write(o, b, d) =>
      OfConcat(sp.pending, [Update(o, b, d)], op);
      OfConcat(sp.issued, [Update(o, b, d)], op);
    case CommitHead => OfConcat(sp.committed, sp.pending, op);
    case _ =>
  }

  /** Over whole runs with any number of crashes, the durable store holds every operation
      in full or not at all, and never a part of one still running. */
  lemma {:induction false} OperationsAreAtomic(es: seq<Event>, op: nat)
    requires SpecRuns(es)
    ensures AllOrNothing(SpecRun(es), op)
  {
    if es != [] {
      OperationsAreAtomic(es[..|es| - 1], op);
      AllOrNothingStep(SpecRun(es[..|es| - 1]), es[|es| - 1], op);
    }
  }

  /** Durable updates are never taken back or reordered. */
  lemma {:induction false} DurableOnlyGrows(es: seq<Event>, k: nat)
    requires k <= |es|
    ensures SpecRun(es[..k]).committed <= SpecRun(es).committed
  {
    if k == |es| {
      assert es[..k] == es;
    } else {
      var front := es[..|es| - 1];
      DurableOnlyGrows(front, k);
      assert front[..k] == es[..k];
    }
  }

  /** No group is committed while an operation runs: an operation active at two moments has
      seen no commit (and no crash) in between. */
  lemma {:induction false} NoCommitInsideOperation(es: seq<Event>, k: nat, op: nat)
    requires SpecRuns(es) && k <= |es|
    requires op in SpecRun(es[..k]).active && op in SpecRun(es).active
    ensures SpecRun(es[..k]).committed == SpecRun(es).committed
    ensures forall i :: k <= i < |es| ==> !es[i].CommitHead? && !es[i].Crash?
  {
    if k == |es| {
      assert es[..k] == es;
    } else {
      var front := es[..|es| - 1];
      assert front[..k] == es[..k];
      OperationsAreAtomic(es[..k], op) by { RunsPrefix(es, k); }
      NextOnlyGrows(front, k);
      NoCommitInsideOperation(front, k, op);
    }
  }

  lemma {:induction false} RunsPrefix(es: seq<Event>, k: nat)
    requires SpecRuns(es) && k <= |es|
    ensures SpecRuns(es[..k])
  {
    if k == |es| {
      assert es[..k] == es;
    } else {
      RunsPrefix(es[..|es| - 1], k);
      assert es[..|es| - 1][..k] == es[..k];
    }
  }

  lemma {:induction false} NextOnlyGrows(es: seq<Event>, k: nat)
    requires k <= |es|
    ensures SpecRun(es[..k]).next <= SpecRun(es).next
  {
    if k == |es| {
      assert es[..k] == es;
    } else {
      NextOnlyGrows(es[..|es| - 1], k);
      assert es[..|es| - 1][..k] == es[..k];
    }
  }

  /** The home blocks after a list of updates. */
  function Apply(home: seq<Block>, us: seq<Update>): (r: seq<Block>)
    ensures |r| == |home|
  {
    if us == [] then home
    else
      var u := us[|us| - 1];
      var h := Apply(home, us[..|us| - 1]);
      if u.block < |h| then h[u.block := u.data] else h
  }
}
