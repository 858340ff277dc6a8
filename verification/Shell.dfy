/** sh.c: the parser that walks over the line, and the NULs it leaves behind. */
module Shell {
  import opened ShellSyntax
  import ShellGrammar

  /** A word as the parser keeps it: argv[i] and eargv[i]. */
  datatype Span = Span(q: nat, eq: nat)

  /** A word of the line, as long as it can be. */
  predicate SpanOk(s: string, w: Span) {
    && w.q < w.eq <= |s| && (forall i :: w.q <= i < w.eq ==> Plain(s[i])) && (w.eq < |s| ==> !Plain(s[w.eq]))
  }

  function Word(s: string, w: Span): string { if w.q <= w.eq <= |s| then s[w.q..w.eq] else "" }

  function WordsOf(s: string, ws: seq<Span>): seq<string> { seq(|ws|, i requires 0 <= i < |ws| => Word(s, ws[i])) }

  /** The command with its words spelled out. */
  function Said(s: string, c: Cmd<Span>): Cmd<string> {
    match c
    case Exec(argv) => Exec(WordsOf(s, argv))
    case Redir(d, f, k) => Redir(Said(s, d), Word(s, f), k)
    case Pipe(l, r) => Pipe(Said(s, l), Said(s, r))
    case List(l, r) => List(Said(s, l), Said(s, r))
    case Back(d) => Back(Said(s, d))
  }

  predicate SpansOk(s: string, c: Cmd<Span>) {
    match c
    case Exec(argv) => forall i :: 0 <= i < |argv| ==> SpanOk(s, argv[i])
    case Redir(d, f, k) => SpansOk(s, d) && SpanOk(s, f)
    case Pipe(l, r) => SpansOk(s, l) && SpansOk(s, r)
    case List(l, r) => SpansOk(s, l) && SpansOk(s, r)
    case Back(d) => SpansOk(s, d)
  }

  // ----- redirections gathered one after the other -----

  datatype Gathered = Got(list: seq<(string, Kind)>, rest: seq<Token>) | Bad

  function Gather(ts: seq<Token>): (g: Gathered)
    decreases |ts|
  {
    if !NextRedir(ts) then Got([], ts)
    else if |ts| < 2 || !ts[1].Word? then Bad
    else Prepend([(ts[1].text, KindOf(ts[0].c))], Gather(ts[2..]))
  }

  function Prepend(l: seq<(string, Kind)>, g: Gathered): Gathered { if g.Bad? then Bad else Got(l + g.list, g.rest) }

  lemma {:induction false} WrapMore<W>(cmd: Cmd<W>, x: (W, Kind), l: seq<(W, Kind)>)
    ensures Wrap(Redir(cmd, x.0, x.1), l) == Wrap(cmd, [x] + l)
    decreases |l|
  {
    if l == [] {
      assert [x] + l == [x] && [x][..0] == [];
    } else {
      WrapMore(cmd, x, l[..|l| - 1]);
      assert ([x] + l)[..|l|] == [x] + l[..|l| - 1];
    }
  }

  lemma {:induction false} GatherIsRedirs(cmd: Cmd<string>, ts: seq<Token>)
    ensures Redirs(cmd, ts) == match Gather(ts) case Bad => Err case Got(l, rest) => Ok(Wrap(cmd, l), rest)
    decreases |ts|
  {
    if NextRedir(ts) && |ts| >= 2 && ts[1].Word? {
      var x := (ts[1].text, KindOf(ts[0].c));
      GatherIsRedirs(Redir(cmd, x.0, x.1), ts[2..]);
      if Gather(ts[2..]).Got? { WrapMore(cmd, x, Gather(ts[2..]).list); }
    }
  }

  lemma {:induction false} GatherIsArgs(argv: seq<string>, wrap: seq<(string, Kind)>, ts: seq<Token>)
    ensures Args(argv, wrap, ts) == match Gather(ts) case Bad => Err case Got(l, rest) => Args(argv, wrap + l, rest)
    ensures Gather(ts).Got? ==> !NextRedir(Gather(ts).rest)
    decreases |ts|
  {
    if NextRedir(ts) && |ts| >= 2 && ts[1].Word? {
      var x := (ts[1].text, KindOf(ts[0].c));
      GatherIsArgs(argv, wrap + [x], ts[2..]);
      if Gather(ts[2..]).Got? { assert wrap + [x] + Gather(ts[2..]).list == wrap + ([x] + Gather(ts[2..]).list); }
    } else {
      assert wrap + [] == wrap;
    }
  }

  // ----- gettoken and peek -----

  lemma LexSkip(s: string, p: nat)
    requires p < |s| && Space(s[p])
    ensures Lex(s[p..]) == Lex(s[p + 1..])
  {
    assert s[p..][1..] == s[p + 1..];
  }

  lemma LexSymbol(s: string, q: nat)
    requires q < |s| && Symbol(s[q])
    ensures s[q] == '>' && q + 1 < |s| && s[q + 1] == '>' ==> Lex(s[q..]) == [Sym('+')] + Lex(s[q + 2..])
    ensures !(s[q] == '>' && q + 1 < |s| && s[q + 1] == '>') ==> Lex(s[q..]) == [Sym(s[q])] + Lex(s[q + 1..])
  {
    assert s[q..][1..] == s[q + 1..];
    assert q + 1 < |s| ==> s[q..][1] == s[q + 1] && s[q..][2..] == s[q + 2..];
  }

  lemma LexPlain(s: string, w: Span)
    requires SpanOk(s, w)
    ensures Lex(s[w.q..]) == [Token.Word(Word(s, w))] + Lex(s[w.eq..])
  {
    var t := s[w.q..];
    WordLengthIs(t, w.eq - w.q);
    assert t[0] == s[w.q];
    assert t[..w.eq - w.q] == s[w.q..w.eq] && t[w.eq - w.q..] == s[w.eq..];
  }

  method SkipSpace(s: string, p: nat) returns (p': nat)
    requires p <= |s|
    ensures p <= p' <= |s| && Lex(s[p'..]) == Lex(s[p..]) && (p' < |s| ==> !Space(s[p']))
  {
    p' := p;
    while p' < |s| && Space(s[p'])
      invariant p <= p' <= |s| && Lex(s[p'..]) == Lex(s[p..])
    {
      LexSkip(s, p');
      p' := p' + 1;
    }
  }

  /** gettoken, on a line without NULs: 0 at the end, 'a' for a word, else the symbol. */
  method Gettoken(s: string, p: nat) returns (ret: char, w: Span, p': nat)
    requires p <= |s| && '\0' !in s
    ensures p <= p' <= |s| && (ret != '\0' ==> p < p')
    ensures ret == '\0' ==> Lex(s[p..]) == [] && p' == |s|
    ensures ret == 'a' ==> SpanOk(s, w) && Lex(s[p..]) == [Token.Word(Word(s, w))] + Lex(s[p'..])
    ensures ret != '\0' && ret != 'a' ==> (Symbol(ret) || ret == '+') && Lex(s[p..]) == [Sym(ret)] + Lex(s[p'..])
  {
    hide Lex;
    var i := SkipSpace(s, p);
    var q := i;
    w := Span(q, i);
    if i == |s| {
      AtEnd(s);
      return '\0', w, i;
    }
    ret := s[i];
    if Symbol(ret) {
      LexSymbol(s, q);
      i := i + 1;
      if ret == '>' && i < |s| && s[i] == '>' {
        ret := '+';
        i := i + 1;
      }
    } else {
      ret := 'a';
      while i < |s| && !Space(s[i]) && !Symbol(s[i])
        invariant q <= i <= |s| && forall j :: q <= j < i ==> Plain(s[j])
      {
        i := i + 1;
      }
      LexPlain(s, Span(q, i));
    }
    w := Span(q, i);
    p' := SkipSpace(s, i);
  }

  lemma AtEnd(s: string)
    ensures Lex(s[|s|..]) == []
  {
  }

  /** The next token starts with one of `toks`. */
  predicate StartsIn(ts: seq<Token>, toks: string) {
    ts != [] && ts[0].Sym? && (ts[0].c in toks || (ts[0].c == '+' && '>' in toks))
  }

  method Peek(s: string, p: nat, toks: string) returns (r: bool, p': nat)
    requires p <= |s| && '\0' !in s && forall c :: c in toks ==> Symbol(c)
    ensures p <= p' <= |s| && Lex(s[p'..]) == Lex(s[p..]) && (r <==> StartsIn(Lex(s[p..]), toks))
    ensures Lex(s[p..]) == [] <==> p' == |s|
  {
    p' := SkipSpace(s, p);
    r := p' < |s| && s[p'] in toks;
    if p' < |s| {
      assert s[p'..][0] == s[p'];
    }
  }

  // ----- the parser -----

  /** What a parse function returns is what the parser on tokens returns. */
  predicate Agrees(s: string, ok: bool, c: Cmd<Span>, p: nat, want: Parsed) {
    if want.Err? then !ok
    else ok && p <= |s| && SpansOk(s, c) && Said(s, c) == want.cmd && Lex(s[p..]) == want.rest
  }

  predicate ListAgrees(s: string, ok: bool, l: seq<(Span, Kind)>, p: nat, want: Gathered) {
    if want.Bad? then !ok
    else ok && p <= |s| && RedirsOk(s, l) && SaidAll(s, l) == want.list && Lex(s[p..]) == want.rest
  }

  predicate RedirsOk(s: string, l: seq<(Span, Kind)>) { forall i :: 0 <= i < |l| ==> SpanOk(s, l[i].0) }

  function SaidAll(s: string, l: seq<(Span, Kind)>): seq<(string, Kind)> {
    seq(|l|, i requires 0 <= i < |l| => (Word(s, l[i].0), l[i].1))
  }

  lemma {:induction false} SaidWrap(s: string, c: Cmd<Span>, l: seq<(Span, Kind)>)
    requires SpansOk(s, c) && RedirsOk(s, l)
    ensures SpansOk(s, Wrap(c, l)) && Said(s, Wrap(c, l)) == Wrap(Said(s, c), SaidAll(s, l))
    decreases |l|
  {
    if l != [] {
      SaidWrap(s, c, l[..|l| - 1]);
      assert SaidAll(s, l)[..|l| - 1] == SaidAll(s, l[..|l| - 1]);
    }
  }

  /** parseredirs: the redirections to be put around a command. */
  method Parseredirs(s: string, p: nat) returns (ok: bool, l: seq<(Span, Kind)>, p': nat)
    requires p <= |s| && '\0' !in s
    ensures p <= p' <= |s| && ListAgrees(s, ok, l, p', Gather(Lex(s[p..])))
  {
    hide Lex, Gather;
    l := [];
    var more;
    more, p' := Peek(s, p, "<>");
    GatherNone(Lex(s[p'..]));
    while more
      invariant p <= p' <= |s| && RedirsOk(s, l)
      invariant Gather(Lex(s[p..])) == Prepend(SaidAll(s, l), Gather(Lex(s[p'..])))
      invariant more <==> NextRedir(Lex(s[p'..]))
      decreases |s| - p'
    {
      ghost var ts := Lex(s[p'..]);
      var tok, w0, p1 := Gettoken(s, p');
      var ret, w, p2 := Gettoken(s, p1);
      GatherOne(ts, tok, Lex(s[p1..]));
      if ret != 'a' {
        return false, l, p2;     // "missing file for redirection"
      }
      var x := (w, KindOf(tok));
      GatherTwo(SaidAll(s, l), (Word(s, w), x.1), Gather(Lex(s[p2..])));
      assert Lex(s[p1..])[1..] == Lex(s[p2..]);
      assert SaidAll(s, l + [x]) == SaidAll(s, l) + [(Word(s, w), x.1)];
      l := l + [x];
      more, p' := Peek(s, p2, "<>");
    }
    GatherNone(Lex(s[p'..]));
    assert SaidAll(s, l) + [] == SaidAll(s, l);
    ok := true;
  }

  lemma GatherNone(ts: seq<Token>)
    ensures !NextRedir(ts) ==> Gather(ts) == Got([], ts)
    ensures Prepend([], Gather(ts)) == Gather(ts)
  {
  }

  lemma GatherOne(ts: seq<Token>, tok: char, after: seq<Token>)
    requires ts == [Sym(tok)] + after && NextRedir(ts)
    ensures Gather(ts) ==
            if after != [] && after[0].Word? then Prepend([(after[0].text, KindOf(tok))], Gather(after[1..])) else Bad
  {
    assert after != [] ==> ts[2..] == after[1..] && ts[1] == after[0];
  }

  lemma GatherTwo(l: seq<(string, Kind)>, x: (string, Kind), g: Gathered)
    ensures Prepend(l, Prepend([x], g)) == Prepend(l + [x], g)
  {
    if g.Got? { assert l + ([x] + g.list) == l + [x] + g.list; }
  }

  const NO_CMD: Cmd<Span> := Exec([])

  method Parseblock(s: string, p: nat) returns (ok: bool, c: Cmd<Span>, p': nat)
    requires p <= |s| && '\0' !in s && Next(Lex(s[p..]), '(')
    ensures p < p' <= |s| && Agrees(s, ok, c, p', Block(Lex(s[p..])))
    decreases |s| - p, 0
  {
    hide Lex, Line, Redirs, Said, SpansOk, Wrap;
    ghost var ts := Lex(s[p..]);
    var tok, w, p1 := Gettoken(s, p);
    assert ts[1..] == Lex(s[p1..]);
    ok, c, p' := Parseline(s, p1);
    if !ok {
      return;
    }
    var close, p2 := Peek(s, p', ")");
    p' := p2;
    if !close {
      return false, c, p';     // "syntax - missing )"
    }
    ghost var rest := Lex(s[p2..]);
    tok, w, p' := Gettoken(s, p2);
    assert rest[1..] == Lex(s[p'..]);
    GatherIsRedirs(Said(s, c), Lex(s[p'..]));
    var l;
    ok, l, p' := Parseredirs(s, p');
    if ok {
      SaidWrap(s, c, l);
      c := Wrap(c, l);
    }
  }

  method Parseexec(s: string, p: nat) returns (ok: bool, c: Cmd<Span>, p': nat)
    requires p <= |s| && '\0' !in s
    ensures p <= p' <= |s| && Agrees(s, ok, c, p', Simple(Lex(s[p..])))
    decreases |s| - p, 1
  {
    hide Lex, Block, Args;
    var paren, p1 := Peek(s, p, "(");
    if paren {
      ok, c, p' := Parseblock(s, p1);
    } else {
      ok, c, p' := Parsewords(s, p1);
    }
  }

  /** The rest of parseexec: words and redirections in any order. */
  method Parsewords(s: string, p: nat) returns (ok: bool, c: Cmd<Span>, p': nat)
    requires p <= |s| && '\0' !in s
    ensures p <= p' <= |s| && Agrees(s, ok, c, p', Args([], [], Lex(s[p..])))
  {
    hide Lex, Args, Gather, Said, SpansOk, Wrap, SaidAll, WordsOf;
    var argv: seq<Span>, wrap: seq<(Span, Kind)> := [], [];
    c := NO_CMD;
    NothingSaid(s);
    GatherIsArgs([], [], Lex(s[p..]));
    var l;
    ok, l, p' := Parseredirs(s, p);
    if !ok {
      return;
    }
    SaidMore(s, wrap, l);
    wrap := wrap + l;
    var stop;
    stop, p' := Peek(s, p', "|)&;");
    while !stop
      invariant p <= p' <= |s| && |argv| < MAXARGS && SpansIn(s, argv) && RedirsOk(s, wrap)
      invariant Args([], [], Lex(s[p..])) == Args(WordsOf(s, argv), SaidAll(s, wrap), Lex(s[p'..]))
      invariant !NextRedir(Lex(s[p'..])) && (Lex(s[p'..]) == [] <==> p' == |s|)
      invariant stop <==> NextStop(Lex(s[p'..])) && Lex(s[p'..]) != []
      decreases |s| - p'
    {
      ghost var ts := Lex(s[p'..]);
      var tok, w, p1 := Gettoken(s, p');
      ArgsOne(WordsOf(s, argv), SaidAll(s, wrap), ts);
      WordsMore(s, argv, w);
      if tok == '\0' {
        break;
      }
      p' := p1;
      if tok != 'a' {
        return false, c, p';       // "syntax"
      }
      assert ts[1..] == Lex(s[p1..]);
      argv := argv + [w];
      if |argv| >= MAXARGS {
        return false, c, p';       // "too many args"
      }
      GatherIsArgs(WordsOf(s, argv), SaidAll(s, wrap), Lex(s[p'..]));
      ok, l, p' := Parseredirs(s, p');
      if !ok {
        return;
      }
      SaidMore(s, wrap, l);
      wrap := wrap + l;
      stop, p' := Peek(s, p', "|)&;");
    }
    ArgsOne(WordsOf(s, argv), SaidAll(s, wrap), Lex(s[p'..]));
    ExecSaid(s, argv, wrap);
    c := Wrap(Exec(argv), wrap);
    ok := true;
  }

  method Parsepipe(s: string, p: nat) returns (ok: bool, c: Cmd<Span>, p': nat)
    requires p <= |s| && '\0' !in s
    ensures p <= p' <= |s| && Agrees(s, ok, c, p', Pipes(Lex(s[p..])))
    decreases |s| - p, 2
  {
    hide Lex, Simple;
    ok, c, p' := Parseexec(s, p);
    if !ok {
      return;
    }
    ghost var rest := Lex(s[p'..]);
    var bar, p1 := Peek(s, p', "|");
    p' := p1;
    if bar {
      var tok, w;
      tok, w, p' := Gettoken(s, p1);
      assert rest[1..] == Lex(s[p'..]);
      var d;
      ok, d, p' := Parsepipe(s, p');
      c := Pipe(c, d);
    }
  }

  method Parseline(s: string, p: nat) returns (ok: bool, c: Cmd<Span>, p': nat)
    requires p <= |s| && '\0' !in s
    ensures p <= p' <= |s| && Agrees(s, ok, c, p', Line(Lex(s[p..])))
    decreases |s| - p, 3
  {
    hide Lex, Pipes;
    ok, c, p' := Parsepipe(s, p);
    if !ok {
      return;
    }
    c, p' := Parsebacks(s, c, p');
    ghost var rest := Lex(s[p'..]);
    var semi, p1 := Peek(s, p', ";");
    p' := p1;
    if semi {
      var tok, w;
      tok, w, p' := Gettoken(s, p1);
      assert rest[1..] == Lex(s[p'..]);
      var d;
      ok, d, p' := Parseline(s, p');
      c := List(c, d);
    }
  }

  /** The loop of parseline over &. */
  method Parsebacks(s: string, c0: Cmd<Span>, p: nat) returns (c: Cmd<Span>, p': nat)
    requires p <= |s| && '\0' !in s && SpansOk(s, c0)
    ensures p <= p' <= |s| && Agrees(s, true, c, p', Backs(Said(s, c0), Lex(s[p..])))
  {
    hide Lex;
    c := c0;
    var amp;
    amp, p' := Peek(s, p, "&");
    while amp
      invariant p <= p' <= |s| && SpansOk(s, c)
      invariant Backs(Said(s, c0), Lex(s[p..])) == Backs(Said(s, c), Lex(s[p'..]))
      invariant amp <==> Next(Lex(s[p'..]), '&')
      decreases |s| - p'
    {
      ghost var rest := Lex(s[p'..]);
      var tok, w, p1 := Gettoken(s, p');
      assert rest[1..] == Lex(s[p1..]);
      c := Back(c);
      amp, p' := Peek(s, p1, "&");
    }
  }

  predicate SpansIn(s: string, argv: seq<Span>) { forall i :: 0 <= i < |argv| ==> SpanOk(s, argv[i]) }

  lemma NothingSaid(s: string)
    ensures WordsOf(s, []) == [] && SaidAll(s, []) == []
  {
  }

  lemma SaidMore(s: string, wrap: seq<(Span, Kind)>, l: seq<(Span, Kind)>)
    ensures SaidAll(s, wrap + l) == SaidAll(s, wrap) + SaidAll(s, l)
  {
  }

  lemma WordsMore(s: string, argv: seq<Span>, w: Span)
    ensures WordsOf(s, argv + [w]) == WordsOf(s, argv) + [Word(s, w)] && |WordsOf(s, argv)| == |argv|
  {
  }

  lemma ArgsOne(argv: seq<string>, wrap: seq<(string, Kind)>, ts: seq<Token>)
    requires !NextRedir(ts)
    ensures NextStop(ts) ==> Args(argv, wrap, ts) == Ok(Wrap(Exec(argv), wrap), ts)
    ensures !NextStop(ts) ==>
              && ts != []
              && Args(argv, wrap, ts) ==
                 if !ts[0].Word? || |argv| + 1 >= MAXARGS then Err else Args(argv + [ts[0].text], wrap, ts[1..])
  {
  }

  lemma ExecSaid(s: string, argv: seq<Span>, wrap: seq<(Span, Kind)>)
    requires SpansIn(s, argv) && RedirsOk(s, wrap)
    ensures SpansOk(s, Wrap(Exec(argv), wrap))
            && Said(s, Wrap(Exec(argv), wrap)) == Wrap(Exec(WordsOf(s, argv)), SaidAll(s, wrap))
  {
    SaidWrap(s, Exec(argv), wrap);
  }

  // ----- nulterminate -----

  /** One of the places nulterminate writes to. */
  predicate IsEnd(c: Cmd<Span>, k: nat) {
    match c
    case Exec(argv) => exists i :: 0 <= i < |argv| && argv[i].eq == k
    case Redir(d, f, _) => IsEnd(d, k) || f.eq == k
    case Pipe(l, r) => IsEnd(l, k) || IsEnd(r, k)
    case List(l, r) => IsEnd(l, k) || IsEnd(r, k)
    case Back(d) => IsEnd(d, k)
  }

  predicate HasWord(c: Cmd<Span>, w: Span) {
    match c
    case Exec(argv) => w in argv
    case Redir(d, f, _) => HasWord(d, w) || f == w
    case Pipe(l, r) => HasWord(l, w) || HasWord(r, w)
    case List(l, r) => HasWord(l, w) || HasWord(r, w)
    case Back(d) => HasWord(d, w)
  }

  /** The C string at `q`. */
  function CString(b: seq<char>, q: nat): string
    decreases |b| - q
  {
    if q >= |b| || b[q] == '\0' then "" else [b[q]] + CString(b, q + 1)
  }

  lemma {:induction false} EndsOutsideWords(s: string, c: Cmd<Span>, k: nat)
    requires SpansOk(s, c) && IsEnd(c, k)
    ensures k <= |s| && (k < |s| ==> !Plain(s[k]))
    decreases c
  {
    match c
    case Exec(argv) =>
    case Redir(d, f, _) => if IsEnd(d, k) { EndsOutsideWords(s, d, k); }
    case Pipe(l, r) => if IsEnd(l, k) { EndsOutsideWords(s, l, k); } else { EndsOutsideWords(s, r, k); }
    case List(l, r) => if IsEnd(l, k) { EndsOutsideWords(s, l, k); } else { EndsOutsideWords(s, r, k); }
    case Back(d) => EndsOutsideWords(s, d, k);
  }

  lemma {:induction false} WordEnds(s: string, c: Cmd<Span>, w: Span)
    requires SpansOk(s, c) && HasWord(c, w)
    ensures SpanOk(s, w) && IsEnd(c, w.eq)
    decreases c
  {
    match c
    case Exec(argv) =>
    case Redir(d, f, _) => if HasWord(d, w) { WordEnds(s, d, w); }
    case Pipe(l, r) => if HasWord(l, w) { WordEnds(s, l, w); } else { WordEnds(s, r, w); }
    case List(l, r) => if HasWord(l, w) { WordEnds(s, l, w); } else { WordEnds(s, r, w); }
    case Back(d) => WordEnds(s, d, w);
  }

  lemma {:induction false} CStringIs(b: seq<char>, q: nat, eq: nat)
    requires q <= eq < |b| && b[eq] == '\0' && forall k :: q <= k < eq ==> b[k] != '\0'
    ensures CString(b, q) == b[q..eq]
    decreases eq - q
  {
    if q < eq {
      CStringIs(b, q + 1, eq);
      assert b[q..eq] == [b[q]] + b[q + 1..eq];
    }
  }

  /** Writes a NUL after every word of the command, and nowhere else. */
  method Nulterminate(c: Cmd<Span>, buf: array<char>)
    requires forall k: nat {:trigger IsEnd(c, k)} :: IsEnd(c, k) ==> k < buf.Length
    modifies buf
    ensures forall k: nat {:trigger buf[k]} {:trigger IsEnd(c, k)} :: k < buf.Length ==>
              buf[k] == if IsEnd(c, k) then '\0' else old(buf[k])
    decreases c
  {
    match c {
      case Exec(argv) =>
        var i := 0;
        while i < |argv|
          invariant i <= |argv|
          invariant forall k: nat :: k < buf.Length ==>
                      buf[k] == if exists j :: 0 <= j < i && argv[j].eq == k then '\0' else old(buf[k])
        {
          assert IsEnd(c, argv[i].eq);
          buf[argv[i].eq] := '\0';
          i := i + 1;
        }
      case Redir(d, f, _) =>
        assert forall k: nat :: IsEnd(d, k) ==> IsEnd(c, k);
        Nulterminate(d, buf);
        assert IsEnd(c, f.eq);
        buf[f.eq] := '\0';
      case Pipe(l, r) =>
        assert forall k: nat :: IsEnd(l, k) || IsEnd(r, k) ==> IsEnd(c, k);
        Nulterminate(l, buf);
        Nulterminate(r, buf);
      case List(l, r) =>
        assert forall k: nat :: IsEnd(l, k) || IsEnd(r, k) ==> IsEnd(c, k);
        Nulterminate(l, buf);
        Nulterminate(r, buf);
      case Back(d) =>
        assert forall k: nat :: IsEnd(d, k) ==> IsEnd(c, k);
        Nulterminate(d, buf);
    }
  }

  /** parsecmd of the line in buf[..n]: it accepts the lines that the parser on tokens accepts, which are
      those of the grammar, returns the command they mean, and afterwards each of its words is a C
      string. */
  method Parsecmd(buf: array<char>, n: nat) returns (ok: bool, c: Cmd<Span>)
    requires n < buf.Length && buf[n] == '\0' && '\0' !in buf[..n]
    modifies buf
    ensures ok <==> Command(Lex(old(buf[..n]))).Ok?
    ensures ok ==> Said(old(buf[..n]), c) == Command(Lex(old(buf[..n]))).cmd
    ensures ok ==> forall w: Span {:trigger HasWord(c, w)} :: HasWord(c, w) ==>
            CString(buf[..], w.q) == Word(old(buf[..n]), w)
    ensures !ok ==> buf[..] == old(buf[..])
    ensures ok <==> exists l: ShellGrammar.Lines {:trigger ShellGrammar.WriteLines(l)} ::
                      ShellGrammar.LinesOk(l) && ShellGrammar.WriteLines(l) == Lex(old(buf[..n]))
    ensures ok ==> forall l: ShellGrammar.Lines {:trigger ShellGrammar.WriteLines(l)} ::
              ShellGrammar.LinesOk(l) && ShellGrammar.WriteLines(l) == Lex(old(buf[..n])) ==>
              Said(old(buf[..n]), c) == ShellGrammar.LinesMean(l)
  {
    hide Lex, Line, Said, SpansOk, ShellGrammar.WriteLines, ShellGrammar.LinesMean, ShellGrammar.LinesOk;
    var s := buf[..n];
    ShellGrammar.Accepted(Lex(s));
    assert s[0..] == s;
    var p;
    ok, c, p := Parseline(s, 0);
    if !ok {
      return;
    }
    var more, p1 := Peek(s, p, "");
    if p1 != |s| {
      return false, c;           // "leftovers"
    }
    forall k: nat | IsEnd(c, k)
      ensures k < buf.Length
    {
      EndsOutsideWords(s, c, k);
    }
    ghost var b := buf[..];
    Nulterminate(c, buf);
    forall w: Span | HasWord(c, w)
      ensures CString(buf[..], w.q) == Word(s, w)
    {
      WordStands(s, c, w, b, buf[..]);
    }
  }

  lemma WordStands(s: string, c: Cmd<Span>, w: Span, b: seq<char>, b': seq<char>)
    requires SpansOk(s, c) && HasWord(c, w) && s < b && '\0' !in s && |b'| == |b|
    requires forall k: nat {:trigger b'[k]} :: k < |b| ==> b'[k] == if IsEnd(c, k) then '\0' else b[k]
    ensures CString(b', w.q) == Word(s, w)
  {
    WordEnds(s, c, w);
    forall k: nat | w.q <= k < w.eq
      ensures b'[k] == s[k] != '\0'
    {
      if IsEnd(c, k) { EndsOutsideWords(s, c, k); }
      assert s[k] in s;
    }
    CStringIs(b', w.q, w.eq);
  }
}
