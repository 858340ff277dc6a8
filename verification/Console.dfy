/** console.c: the input line being edited and the lines not read yet share one ring. */
module Console {
  import opened Common

  const INPUT_BUF: nat := 128

  type Byte = b: nat | b < 256

  const NL: Byte := 10
  const CR: Byte := 13
  const CTRL_D: Byte := 4
  const CTRL_H: Byte := 8
  const CTRL_P: Byte := 16
  const CTRL_U: Byte := 21
  const DEL: Byte := 127

  /** All lines committed so far, how many of their bytes have been consumed, and the line
      being typed. */
  datatype Input = Input(lines: seq<Byte>, taken: nat, typed: seq<Byte>)

  function Fill(s: Input): int { |s.lines| - s.taken + |s.typed| }

  predicate Commits(c: Byte) { c == NL || c == CTRL_D }

  /** What one typed character does; a character that finds the ring full is lost. */
  function Type(s: Input, c: Byte): Input {
    if c == CTRL_P then s
    else if c == CTRL_U then s.(typed := [])
    else if c == CTRL_H || c == DEL then (if s.typed == [] then s else s.(typed := s.typed[..|s.typed| - 1]))
    else if c == 0 || Fill(s) >= INPUT_BUF then s
    else Stroke(s, if c == CR then NL else c)
  }

  function TypeAll(s: Input, cs: seq<Byte>): Input
    decreases |cs|
  {
    if cs == [] then s else TypeAll(Type(s, cs[0]), cs[1..])
  }

  /** The line being typed holds no end of line; a full ring holds no line being typed. */
  predicate Sane(s: Input) {
    && s.taken <= |s.lines| && Fill(s) <= INPUT_BUF
    && (forall i :: 0 <= i < |s.typed| ==> !Commits(s.typed[i]))
    && (Fill(s) == INPUT_BUF ==> s.typed == [])
  }

  lemma TypeSane(s: Input, c: Byte)
    requires Sane(s)
    ensures Sane(Type(s, c))
  {
  }

  /** Editing never touches what has been committed: lines only grow. */
  lemma {:induction false} CommittedStays(s: Input, cs: seq<Byte>)
    requires Sane(s)
    ensures var s' := TypeAll(s, cs); Sane(s') && s'.taken == s.taken && s.lines <= s'.lines
    decreases |cs|
  {
    if cs != [] {
      TypeSane(s, cs[0]);
      CommittedStays(Type(s, cs[0]), cs[1..]);
      assert s.lines <= Type(s, cs[0]).lines;
    }
  }

  lemma {:induction false} TypeMore(s: Input, cs: seq<Byte>, c: Byte)
    ensures TypeAll(s, cs + [c]) == Type(TypeAll(s, cs), c)
    decreases |cs|
  {
    if cs == [] {
      assert cs + [c] == [c];
    } else {
      assert (cs + [c])[1..] == cs[1..] + [c];
      TypeMore(Type(s, cs[0]), cs[1..], c);
    }
  }

  // ----- what the keys do -----

  /** A character that stands for itself. */
  predicate Ordinary(c: Byte) { c !in {0, NL, CR, CTRL_D, CTRL_H, CTRL_P, CTRL_U, DEL} }

  /** As long as there is room, ordinary characters are put at the end of the line being typed. */
  lemma {:induction false} OrdinaryTyped(s: Input, cs: seq<Byte>)
    requires Fill(s) + |cs| < INPUT_BUF && forall c :: c in cs ==> Ordinary(c)
    ensures TypeAll(s, cs) == s.(typed := s.typed + cs)
    decreases |cs|
  {
    if cs == [] {
      assert s.typed + [] == s.typed;
    } else {
      assert cs[0] in cs;
      OrdinaryTyped(s.(typed := s.typed + [cs[0]]), cs[1..]);
      assert s.typed + [cs[0]] + cs[1..] == s.typed + cs;
    }
  }

  /** Return, newline or ^D then commit the line, the first two as a newline. */
  lemma LineCommitted(s: Input, cs: seq<Byte>, end: Byte)
    requires Fill(s) + |cs| < INPUT_BUF && (forall c :: c in cs ==> Ordinary(c)) && end in {NL, CR, CTRL_D}
    ensures TypeAll(s, cs + [end])
            == Input(s.lines + s.typed + cs + [if end == CTRL_D then CTRL_D else NL], s.taken, [])
  {
    OrdinaryTyped(s, cs);
    TypeMore(s, cs, end);
    var stop: Byte := if end == CTRL_D then CTRL_D else NL;
    assert s.lines + (s.typed + cs + [stop]) == s.lines + s.typed + cs + [stop];
  }

  /** Delete and ^H undo the last ordinary character of the line; with nothing typed they do nothing. */
  lemma EraseUndoes(s: Input, cs: seq<Byte>, c: Byte, key: Byte)
    requires Fill(s) + |cs| + 1 < INPUT_BUF && (forall d :: d in cs ==> Ordinary(d)) && Ordinary(c)
             && key in {CTRL_H, DEL}
    ensures TypeAll(s, cs + [c] + [key]) == TypeAll(s, cs)
    ensures s.typed == [] ==> Type(s, key) == s
  {
    assert forall d :: d in cs + [c] ==> Ordinary(d);
    OrdinaryTyped(s, cs + [c]);
    OrdinaryTyped(s, cs);
    TypeMore(s, cs + [c], key);
    assert (s.typed + (cs + [c]))[..|s.typed + (cs + [c])| - 1] == s.typed + cs;
  }

  /** ^U throws away the line being typed, however long, and only that. */
  lemma LineKilled(s: Input, cs: seq<Byte>)
    requires Fill(s) + |cs| < INPUT_BUF && forall c :: c in cs ==> Ordinary(c)
    ensures TypeAll(s, cs + [CTRL_U]) == s.(typed := [])
  {
    OrdinaryTyped(s, cs);
    TypeMore(s, cs, CTRL_U);
  }

  /** The character that fills the ring commits the line; in a full ring everything but the editing keys
      is lost, and so are NUL and ^P always. */
  lemma RingFull(s: Input, c: Byte)
    requires Sane(s)
    ensures Ordinary(c) && Fill(s) == INPUT_BUF - 1 ==> Type(s, c) == Input(s.lines + s.typed + [c], s.taken, [])
    ensures (Fill(s) == INPUT_BUF && c !in {CTRL_H, CTRL_U, DEL}) || c in {0, CTRL_P} ==> Type(s, c) == s
  {
    assert s.lines + (s.typed + [c]) == s.lines + s.typed + [c];
  }

  /** The bytes in the ring, oldest first. */
  function Stored(s: Input): seq<Byte> { s.lines + s.typed }

  /** The ring and its indices stand for this input. */
  predicate Holds(b: seq<Byte>, r: nat, w: nat, e: nat, s: Input) {
    && |b| == INPUT_BUF && Sane(s)
    && r == s.taken % UINT && w == |s.lines| % UINT && e == |Stored(s)| % UINT
    && forall k: nat {:trigger Stored(s)[k]} :: s.taken <= k < |Stored(s)| ==> b[k % INPUT_BUF] == Stored(s)[k]
  }

  class Console {
    const buf: array<Byte>
    var r: nat       // uint32 indices: read, write, edit
    var w: nat
    var e: nat
    ghost var input: Input

    ghost predicate Valid()
      reads this, buf
    {
      buf.Length == INPUT_BUF && Holds(buf[..], r, w, e, input)
    }

    constructor ()
      ensures Valid() && input == Input([], 0, []) && fresh(buf)
    {
      buf := new Byte[INPUT_BUF](_ => 0);
      r, w, e := 0, 0, 0;
      input := Input([], 0, []);
    }

    /** consoleintr: the ring afterwards holds what the editing rules say. */
    method Consoleintr(c: Byte)
      requires Valid()
      modifies this`w, this`e, this`input, buf
      ensures Valid() && input == Type(old(input), c)
    {
      hide Holds, Sane;
      Differences(buf[..], r, w, e, input);
      if c == CTRL_P {
      } else if c == CTRL_U {
        KillLine();
      } else if c == CTRL_H || c == DEL {
        if e != w {
          Erase();
        }
      } else if c != 0 && (e + UINT - r) % UINT < INPUT_BUF {
        Put(if c == CR then NL else c);
      }
    }

    /** The edit index goes back by one. */
    method Erase()
      requires Valid() && input.typed != []
      modifies this`e, this`input
      ensures Valid() && input == old(input).(typed := old(input).typed[..|old(input).typed| - 1])
    {
      hide Holds;
      Erased(buf[..], r, w, e, input);
      e := (e + UINT - 1) % UINT;
      input := input.(typed := input.typed[..|input.typed| - 1]);
    }

    /** The loop for ^U.  Its test for a newline never fails, so all of the typed line goes. */
    method KillLine()
      requires Valid()
      modifies this`e, this`input
      ensures Valid() && input == old(input).(typed := [])
    {
      hide Holds, Sane;
      Differences(buf[..], r, w, e, input);
      while e != w && buf[(e + UINT - 1) % UINT % INPUT_BUF] != NL
        invariant Valid() && input == old(input).(typed := input.typed)
        invariant e != w <==> input.typed != []
        decreases |input.typed|
      {
        Erase();
        Differences(buf[..], r, w, e, input);
      }
      LastTyped(buf[..], r, w, e, input);
    }

    /** Stores a byte at the edit index and commits the line if it is complete. */
    method Put(b: Byte)
      requires Valid() && Fill(input) < INPUT_BUF && b != CR
      modifies this`w, this`e, this`input, buf
      ensures Valid() && input == Stroke(old(input), b)
    {
      hide Holds, Sane;
      Differences(buf[..], r, w, e, input);
      Stored1(buf[..], r, w, e, input, b);
      ghost var b0 := buf[..];
      buf[e % INPUT_BUF] := b;
      assert buf[..] == b0[e % INPUT_BUF := b];
      e := (e + 1) % UINT;
      if b == NL || b == CTRL_D || e == (r + INPUT_BUF) % UINT {
        w := e;
      }
      input := Stroke(input, b);
    }

    /** What arrives while consoleread sleeps. */
    method Arrive(cs: seq<Byte>)
      requires Valid()
      modifies this`w, this`e, this`input, buf
      ensures Valid() && input == TypeAll(old(input), cs) && input.taken == old(input).taken
              && old(input).lines <= input.lines
    {
      hide Holds, Sane;
      ghost var s := input;
      LinesGrow(buf[..], r, w, e, s, cs);
      assert cs[..0] == [];
      for i := 0 to |cs|
        invariant Valid() && input == TypeAll(s, cs[..i])
      {
        TypeMore(s, cs[..i], cs[i]);
        assert cs[..i + 1] == cs[..i] + [cs[i]];
        Consoleintr(cs[i]);
      }
      assert cs[..|cs|] == cs;
    }

    /** The next committed byte is read. */
    method TakeByte() returns (c: Byte)
      requires Valid() && input.taken < |input.lines|
      modifies this`r, this`input
      ensures Valid() && c == old(input).lines[old(input).taken] && input == old(input).(taken := old(input).taken + 1)
      ensures old(r) == old(input).taken % UINT && r == (old(r) + 1) % UINT
    {
      ghost var t := input.taken;
      Wrap(t);
      assert Stored(input)[t] == input.lines[t];
      c := buf[r % INPUT_BUF];
      r := (r + 1) % UINT;
      input := input.(taken := t + 1);
      assert Stored(input) == Stored(old(input));
    }

    /** Waits for a committed byte, giving up when the process is killed. */
    method Await(arrivals: seq<seq<Byte>>, waits0: nat) returns (killed: bool, waits: nat)
      requires Valid() && waits0 <= |arrivals|
      modifies this`w, this`e, this`input, buf
      ensures Valid() && waits0 <= waits <= |arrivals| && old(input).lines <= input.lines
              && input.taken == old(input).taken
      ensures if killed then waits == |arrivals| else input.taken < |input.lines|
    {
      hide Holds, Sane;
      waits := waits0;
      Differences(buf[..], r, w, e, input);
      while r == w
        invariant Valid() && waits0 <= waits <= |arrivals| && old(input).lines <= input.lines
                  && input.taken == old(input).taken
        invariant input.taken <= |input.lines| && (r == w <==> input.taken == |input.lines|)
        decreases |arrivals| - waits
      {
        if waits == |arrivals| {
          return true, waits;
        }
        Arrive(arrivals[waits]);
        waits := waits + 1;
        Differences(buf[..], r, w, e, input);
      }
      killed := false;
    }

    /** consoleread of up to `n` bytes, with the input that arrives each time it sleeps; when
        there is no more the process is killed.  Each byte of the lines is delivered once and in
        order; a read ends at the end of a line; ^D ends it too, and is left for the next read
        unless it comes first.  The reader's buffer takes `room` bytes; the byte that does not
        fit ends the read and is `lost`. */
    method Consoleread(n: nat, room: nat, arrivals: seq<seq<Byte>>) returns (ret: int, out: seq<Byte>, ghost lost: bool)
      requires Valid()
      modifies this, buf
      ensures Valid() && old(input).lines <= input.lines
      ensures old(input).taken + |out| <= |input.lines|
              && out == input.lines[old(input).taken..old(input).taken + |out|]
      ensures |out| <= room && (ret == -1 || ret == |out| <= n)
      ensures ret != -1 ==> if lost then |out| == room < n else Ended(input.lines, old(input).taken, out, n)
      ensures forall i :: 0 <= i < |out| ==> out[i] != CTRL_D && (i < |out| - 1 ==> out[i] != NL)
      ensures ret != -1 ==> input.taken == old(input).taken + |out| + (if lost || (out == [] && n > 0) then 1 else 0)
      ensures ret == -1 ==> !lost && input.taken == old(input).taken + |out|
    {
      hide Holds, Sane, Ended;
      ghost var t := input.taken;
      out, lost := [], false;
      var waits := 0;
      ValidTaken(buf[..], r, w, e, input);
      while |out| < n
        invariant Valid() && |out| <= n && |out| <= room && waits <= |arrivals| && old(input).lines <= input.lines
                  && !lost
        invariant input.taken == t + |out| <= |input.lines| && out == input.lines[t..t + |out|]
        invariant forall i :: 0 <= i < |out| ==> out[i] != CTRL_D && out[i] != NL
        decreases n - |out|
      {
        ghost var lines := input.lines;
        var killed;
        killed, waits := Await(arrivals, waits);
        SamePart(lines, input.lines, t, |out|);
        if killed {
          return -1, out, lost;
        }
        ghost var s, r0 := input, r;
        var c := TakeByte();
        if c == CTRL_D {
          if out != [] {
            StepBack(r0, s.taken);
            r := (r + UINT - 1) % UINT;
            input := s;
          }
          break;
        }
        if |out| == room {   // either_copyout fails
          lost := true;
          break;
        }
        OneByteMore(input.lines, t, |out|);
        out := out + [c];
        if c == NL {
          break;
        }
      }
      WhyEnded(input.lines, t, out, n);
      ret := |out|;
    }
  }

  lemma StepBack(r: nat, n: nat)
    requires r == n % UINT
    ensures ((r + 1) % UINT + UINT - 1) % UINT == r
  {
    Wrap(n);
  }

  lemma SamePart(a: seq<Byte>, b: seq<Byte>, t: nat, k: nat)
    requires a <= b && t + k <= |a|
    ensures b[t..t + k] == a[t..t + k]
  {
  }

  lemma OneByteMore(lines: seq<Byte>, t: nat, k: nat)
    requires t + k < |lines|
    ensures lines[t..t + (k + 1)] == lines[t..t + k] + [lines[t + k]]
  {
  }

  /** Why a read of up to `n` bytes that delivered `out` ended. */
  predicate Ended(lines: seq<Byte>, t: nat, out: seq<Byte>, n: nat)
    requires t + |out| <= |lines|
  {
    || |out| == n
    || (out != [] && out[|out| - 1] == NL)
    || (t + |out| < |lines| && lines[t + |out|] == CTRL_D)
  }

  lemma WhyEnded(lines: seq<Byte>, t: nat, out: seq<Byte>, n: nat)
    requires t + |out| <= |lines|
    ensures |out| == n ==> Ended(lines, t, out, n)
    ensures out != [] && out[|out| - 1] == NL ==> Ended(lines, t, out, n)
    ensures t + |out| < |lines| && lines[t + |out|] == CTRL_D ==> Ended(lines, t, out, n)
  {
  }

  lemma ValidTaken(b: seq<Byte>, r: nat, w: nat, e: nat, s: Input)
    requires Holds(b, r, w, e, s)
    ensures s.taken <= |s.lines|
  {
  }

  lemma LinesGrow(b: seq<Byte>, r: nat, w: nat, e: nat, s: Input, cs: seq<Byte>)
    requires Holds(b, r, w, e, s)
    ensures TypeAll(s, cs).taken == s.taken && s.lines <= TypeAll(s, cs).lines
  {
    CommittedStays(s, cs);
  }

  /** A character is stored. */
  function Stroke(s: Input, b: Byte): Input {
    var typed := s.typed + [b];
    if Commits(b) || Fill(s) + 1 == INPUT_BUF then Input(s.lines + typed, s.taken, []) else s.(typed := typed)
  }

  lemma Stored1(b: seq<Byte>, r: nat, w: nat, e: nat, s: Input, c: Byte)
    requires Holds(b, r, w, e, s) && Fill(s) < INPUT_BUF
    ensures var e', s' := (e + 1) % UINT, Stroke(s, c);
            && Holds(b[e % INPUT_BUF := c], r, if s'.typed == [] then e' else w, e', s')
            && (e' == (r + INPUT_BUF) % UINT <==> Fill(s) + 1 == INPUT_BUF)
  {
    Slots(s);
    Apart(s.taken, |Stored(s)| + 1);
    var s' := Stroke(s, c);
    assert Stored(s') == Stored(s) + [c];
    forall k: nat | s'.taken <= k < |Stored(s')|
      ensures b[e % INPUT_BUF := c][k % INPUT_BUF] == Stored(s')[k]
    {
      if k < |Stored(s)| { assert Stored(s)[k] == Stored(s')[k]; }
    }
  }

  lemma Erased(b: seq<Byte>, r: nat, w: nat, e: nat, s: Input)
    requires Holds(b, r, w, e, s) && s.typed != []
    ensures Holds(b, r, w, (e + UINT - 1) % UINT, s.(typed := s.typed[..|s.typed| - 1]))
  {
    var s' := s.(typed := s.typed[..|s.typed| - 1]);
    Shorter(s, s');
    Wrap(|Stored(s)| - 1);
    forall k: nat | s'.taken <= k < |Stored(s')|
      ensures b[k % INPUT_BUF] == Stored(s')[k]
    {
      assert Stored(s)[k] == Stored(s')[k];
    }
  }

  /** The byte before the edit index is the last one typed, and no end of line. */
  lemma LastTyped(b: seq<Byte>, r: nat, w: nat, e: nat, s: Input)
    requires Holds(b, r, w, e, s)
    ensures |b| == INPUT_BUF && (s.typed != [] ==> b[(e + UINT - 1) % UINT % INPUT_BUF] != NL)
  {
    if s.typed != [] {
      var n := |Stored(s)| - 1;
      Wrap(n);
      assert Stored(s)[n] == s.typed[|s.typed| - 1];
    }
  }

  /** r <= w <= e <= r + 128 modulo 2^32: the differences of the indices are the true ones. */
  lemma Differences(b: seq<Byte>, r: nat, w: nat, e: nat, s: Input)
    requires Holds(b, r, w, e, s)
    ensures (e + UINT - r) % UINT == Fill(s) <= INPUT_BUF && (w + UINT - r) % UINT == |s.lines| - s.taken >= 0
    ensures (e != w <==> s.typed != []) && (r == w <==> s.taken == |s.lines|)
  {
    Apart(s.taken, |Stored(s)|);
    Apart(s.taken, |s.lines|);
    Apart(|s.lines|, |Stored(s)|);
  }

  lemma Wrap(n: nat)
    ensures n % UINT % INPUT_BUF == n % INPUT_BUF
    ensures (n % UINT + 1) % UINT == (n + 1) % UINT && ((n + 1) % UINT + UINT - 1) % UINT == n % UINT
  {
    assert n == n / UINT * UINT + n % UINT;
  }

  lemma Apart(a: nat, b: nat)
    requires a <= b <= a + INPUT_BUF
    ensures (b % UINT + UINT - a % UINT) % UINT == b - a && (b % UINT != a % UINT <==> a != b)
    ensures b % UINT == (a % UINT + INPUT_BUF) % UINT <==> b == a + INPUT_BUF
  {
    assert a == a / UINT * UINT + a % UINT && b == b / UINT * UINT + b % UINT;
  }

  lemma Shorter(s: Input, s': Input)
    requires Sane(s) && s.typed != [] && s' == s.(typed := s.typed[..|s.typed| - 1])
    ensures Sane(s') && Stored(s') == Stored(s)[..|Stored(s)| - 1]
    ensures forall k: nat {:trigger Stored(s')[k]} :: k < |Stored(s')| ==> Stored(s')[k] == Stored(s)[k]
  {
  }

  /** A ring that is not full has a slot at the edit index that holds nothing to be kept. */
  lemma Slots(s: Input)
    requires Sane(s) && Fill(s) < INPUT_BUF
    ensures |Stored(s)| % UINT % INPUT_BUF == |Stored(s)| % INPUT_BUF
    ensures (|Stored(s)| % UINT + 1) % UINT == (|Stored(s)| + 1) % UINT
    ensures forall k: nat {:trigger Stored(s)[k]} :: s.taken <= k < |Stored(s)| ==>
            k % INPUT_BUF != |Stored(s)| % INPUT_BUF
  {
    Wrap(|Stored(s)|);
    forall k: nat | s.taken <= k < |Stored(s)|
      ensures k % INPUT_BUF != |Stored(s)| % INPUT_BUF
    {
      RingApart(k, |Stored(s)|, INPUT_BUF);
    }
  }
}
