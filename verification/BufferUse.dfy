/** The thirty buffers of bio.c under the log, which keeps the buffer of every block it holds. */
module BufferUse {
  import opened Common
  import Bio
  import LogMachine
  import LogAdmission

  /** The log is the only one to pin: exactly the buffers of the blocks it has still to install, on
      its device. */
  ghost predicate PinsMatch(v: Bio.Cache, s: LogMachine.State, dev: nat) {
    && Bio.Sized(v) && Bio.Good(v) && dev != 0
    && (forall x: nat {:trigger v.bufs[x]} :: x < Bio.NBUF && v.pins[x] > 0 ==>
          v.bufs[x].dev == dev && v.bufs[x].blockno in s.pins)
    && (forall b: nat {:trigger b in s.pins} :: b in s.pins ==> exists x: nat {:trigger v.bufs[x]} ::
          x < Bio.NBUF && v.pins[x] > 0 && v.bufs[x].dev == dev && v.bufs[x].blockno == b)
  }

  function Buffers(n: nat): (s: set<nat>)
    ensures |s| == n && forall x: nat {:trigger x in s} :: x in s <==> x < n
  {
    if n == 0 then {} else Buffers(n - 1) + {n - 1}
  }

  /** The buffers the log keeps. */
  function Kept(v: Bio.Cache): set<nat>
    requires Bio.Sized(v)
  {
    set x | x in Buffers(Bio.NBUF) && v.pins[x] > 0
  }

  /** The buffers processes have looked up and not released. */
  function Taken(v: Bio.Cache): set<nat>
    requires Bio.Sized(v)
  {
    set x | x in Buffers(Bio.NBUF) && (v.waiting[x] > 0 || x in v.held || v.leaving[x] > 0)
  }

  /** One buffer a block. */
  lemma {:induction false} KeptAtMost(v: Bio.Cache, dev: nat, xs: set<nat>, bs: set<nat>)
    requires Bio.Good(v) && dev != 0
    requires forall x :: x in xs ==> x < Bio.NBUF && v.bufs[x].dev == dev && v.bufs[x].blockno in bs
    ensures |xs| <= |bs|
  {
    if xs != {} {
      var x :| x in xs;
      forall y | y in xs - {x}
        ensures v.bufs[y].blockno in bs - {v.bufs[x].blockno}
      {
        assert Bio.Alone(v, x, y);
      }
      KeptAtMost(v, dev, xs - {x}, bs - {v.bufs[x].blockno});
    }
  }

  lemma {:induction false} KeptAtLeast(v: Bio.Cache, dev: nat, xs: set<nat>, bs: set<nat>)
    requires Bio.Sized(v) && forall b :: b in bs ==>
               exists x {:trigger v.bufs[x]} :: x in xs && x < Bio.NBUF && v.bufs[x].blockno == b
    ensures |bs| <= |xs|
  {
    if bs != {} {
      var b :| b in bs;
      var x :| x in xs && x < Bio.NBUF && v.bufs[x].blockno == b;
      KeptAtLeast(v, dev, xs - {x}, bs - {b});
    }
  }

  function Elements(s: seq<nat>): set<nat> { set b | b in s }

  lemma {:induction false} ListSize(s: seq<nat>)
    ensures |Elements(s)| <= |s| && (Distinct(s) ==> |Elements(s)| == |s|)
  {
    if s != [] {
      var front, last := s[..|s| - 1], s[|s| - 1];
      ListSize(front);
      assert s == front + [last];
      assert Elements(s) == Elements(front) + {last};
      if Distinct(s) {
        assert last !in Elements(front);
      }
    }
  }

  lemma PinsListed(L: LogMachine.Layout, s: LogMachine.State)
    requires LogMachine.Inv(L, s)
    ensures s.pins <= Elements(s.lh) && (s.pc.Idle? ==> Elements(s.lh) <= s.pins) && Distinct(s.lh)
  {
    hide LogMachine.Clean, LogMachine.DiskOk, LogMachine.HeadBlocks, LogMachine.HeadOk;
  }

  /** In each of its states the log keeps only blocks of its list; between commits it keeps them all. */
  lemma PinsOfList(L: LogMachine.Layout, s: LogMachine.State)
    requires LogMachine.Inv(L, s)
    ensures |s.pins| <= |s.lh| && (s.pc.Idle? ==> |s.pins| == |s.lh|)
  {
    hide LogMachine.Inv, Elements;
    PinsListed(L, s);
    ListSize(s.lh);
    SubsetSize(s.pins, Elements(s.lh));
    if s.pc.Idle? { assert s.pins == Elements(s.lh); }
  }

  lemma InUse(v: Bio.Cache, x: nat)
    requires Bio.Good(v) && x < Bio.NBUF
    ensures (v.bufs[x].refcnt > 0 <==> x in Kept(v) + Taken(v)) && (x in Kept(v) <==> v.pins[x] > 0)
  {
    hide Buffers, Bio.Alone, Bio.Sorted, Bio.Once;
    assert Bio.BufOk(v, x);
  }

  /** When bget has no buffer to recycle: only if the blocks in the log and the buffers processes have
      in hand are at least NBUF; so not as long as they have fewer in hand than the operations in
      progress may still log. */
  lemma BuffersLast(L: LogMachine.Layout, s: LogMachine.State, v: Bio.Cache, dev: nat)
    requires LogMachine.Inv(L, s) && PinsMatch(v, s, dev)
    ensures (forall x: nat {:trigger v.bufs[x]} :: x < Bio.NBUF ==> v.bufs[x].refcnt > 0) ==>
              Bio.NBUF <= |s.lh| + |Taken(v)|
    ensures LogAdmission.Reserved(s) && |Taken(v)| < MAXOPBLOCKS * |s.active| - |s.wrote| ==>
              exists x: nat {:trigger v.bufs[x]} :: x < Bio.NBUF && v.bufs[x].refcnt == 0
  {
    hide LogMachine.Inv, Bio.Good, Kept, Taken, Buffers;
    KeptIsFew(L, s, v, dev);
    if forall x: nat {:trigger v.bufs[x]} :: x < Bio.NBUF ==> v.bufs[x].refcnt > 0 {
      forall x | x in Buffers(Bio.NBUF)
        ensures x in Kept(v) + Taken(v)
      {
        InUse(v, x);
      }
      SubsetSize(Buffers(Bio.NBUF), Kept(v) + Taken(v));
    }
  }

  lemma KeptIsFew(L: LogMachine.Layout, s: LogMachine.State, v: Bio.Cache, dev: nat)
    requires LogMachine.Inv(L, s) && PinsMatch(v, s, dev)
    ensures |Kept(v)| <= |s.lh| && (s.pc.Idle? ==> |Kept(v)| == |s.lh|) && Kept(v) <= Buffers(Bio.NBUF)
  {
    hide LogMachine.Inv, Bio.Good, Buffers;
    PinsOfList(L, s);
    KeptAtMost(v, dev, Kept(v), s.pins);
    KeptAtLeast(v, dev, Kept(v), s.pins);
  }

  /** A log of NBUF blocks, which LOGSIZE allows, leaves no buffer for any other block. */
  lemma FullLogTakesAll(L: LogMachine.Layout, s: LogMachine.State, v: Bio.Cache, dev: nat, x: nat)
    requires LogMachine.Inv(L, s) && PinsMatch(v, s, dev) && s.pc.Idle? && |s.lh| == LogMachine.LOGSIZE
    requires x < Bio.NBUF
    ensures v.bufs[x].refcnt > 0 && v.bufs[x].blockno in s.lh
  {
    hide LogMachine.Inv, Bio.Good, Buffers, Kept, Taken;
    KeptIsFew(L, s, v, dev);
    if x !in Kept(v) {
      SubsetSize(Kept(v), Buffers(Bio.NBUF) - {x});
    }
    InUse(v, x);
    PinsListed(L, s);
  }
}
