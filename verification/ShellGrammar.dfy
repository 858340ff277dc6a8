/** The grammar of sh.c's commands as people write them, and what it means: the parser accepts exactly
    the lines it allows, and gives each the command it stands for. */
module ShellGrammar {
  import opened ShellSyntax

  /** A word of a command, or a redirection. */
  datatype Item = Arg(word: string) | To(kind: Kind, file: string)

  /** Words and redirections in any order, or a line in parentheses followed by redirections. */
  datatype Simply = Items(items: seq<Item>) | Parens(line: Lines, tos: seq<Item>)

  datatype Piped = One(first: Simply) | Bar(first: Simply, more: Piped)

  /** A pipeline, so many ampersands, and perhaps a semicolon and another line. */
  datatype Lines = Last(pipe: Piped, backs: nat) | Then(pipe: Piped, backs: nat, more: Lines)

  // ----- how they are written -----

  function ItemTokens(i: Item): seq<Token> {
    match i
    case Arg(w) => [Word(w)]
    case To(Input, f) => [Sym('<'), Word(f)]
    case To(Output, f) => [Sym('>'), Word(f)]
    case To(Append, f) => [Sym('+'), Word(f)]
  }

  function WriteItems(items: seq<Item>): seq<Token> {
    if items == [] then [] else ItemTokens(items[0]) + WriteItems(items[1..])
  }

  function WriteSimply(s: Simply): seq<Token> {
    match s
    case Items(items) => WriteItems(items)
    case Parens(l, tos) => [Sym('(')] + WriteLines(l) + [Sym(')')] + WriteItems(tos)
  }

  function WritePiped(p: Piped): seq<Token> {
    match p
    case One(s) => WriteSimply(s)
    case Bar(s, more) => WriteSimply(s) + [Sym('|')] + WritePiped(more)
  }

  function Ampersands(n: nat): seq<Token> { if n == 0 then [] else [Sym('&')] + Ampersands(n - 1) }

  function WriteLines(l: Lines): seq<Token> {
    match l
    case Last(p, n) => WritePiped(p) + Ampersands(n)
    case Then(p, n, more) => WritePiped(p) + Ampersands(n) + [Sym(';')] + WriteLines(more)
  }

  // ----- what they mean -----

  function ArgsOf(items: seq<Item>): seq<string> {
    if items == [] then [] else (if items[0].Arg? then [items[0].word] else []) + ArgsOf(items[1..])
  }

  /** The command with its redirections applied, the first one innermost. */
  function Redirected(c: Cmd<string>, items: seq<Item>): Cmd<string>
    decreases |items|
  {
    if items == [] then c
    else Redirected(if items[0].To? then Redir(c, items[0].file, items[0].kind) else c, items[1..])
  }

  function SimplyMeans(s: Simply): Cmd<string> {
    match s
    case Items(items) => Redirected(Exec(ArgsOf(items)), items)
    case Parens(l, tos) => Redirected(LinesMean(l), tos)
  }

  function PipedMeans(p: Piped): Cmd<string> {
    match p
    case One(s) => SimplyMeans(s)
    case Bar(s, more) => Pipe(SimplyMeans(s), PipedMeans(more))
  }

  function Behind(c: Cmd<string>, n: nat): Cmd<string>
    decreases n
  {
    if n == 0 then c else Behind(Back(c), n - 1)
  }

  function LinesMean(l: Lines): Cmd<string> {
    match l
    case Last(p, n) => Behind(PipedMeans(p), n)
    case Then(p, n, more) => List(Behind(PipedMeans(p), n), LinesMean(more))
  }

  // ----- what is allowed -----

  /** At most nine words a command, and only redirections after parentheses. */
  predicate SimplyOk(s: Simply) {
    match s
    case Items(items) => |ArgsOf(items)| < MAXARGS
    case Parens(l, tos) => LinesOk(l) && ArgsOf(tos) == []
  }

  predicate PipedOk(p: Piped) {
    match p
    case One(s) => SimplyOk(s)
    case Bar(s, more) => SimplyOk(s) && PipedOk(more)
  }

  predicate LinesOk(l: Lines) {
    match l
    case Last(p, _) => PipedOk(p)
    case Then(p, _, more) => PipedOk(p) && LinesOk(more)
  }

  // ----- what is written is read -----

  /** The redirections of a list of items, as the parser gathers them. */
  function TosOf(items: seq<Item>): seq<(string, Kind)> {
    if items == [] then [] else (if items[0].To? then [(items[0].file, items[0].kind)] else []) + TosOf(items[1..])
  }

  lemma {:induction false} WrapIs(c: Cmd<string>, items: seq<Item>)
    ensures Wrap(c, TosOf(items)) == Redirected(c, items)
    decreases |items|
  {
    if items != [] {
      if items[0].To? {
        WrapFirst(c, (items[0].file, items[0].kind), TosOf(items[1..]));
        WrapIs(Redir(c, items[0].file, items[0].kind), items[1..]);
      } else {
        WrapIs(c, items[1..]);
        assert [] + TosOf(items[1..]) == TosOf(items[1..]);
      }
    }
  }

  lemma {:induction false} WrapFirst(c: Cmd<string>, x: (string, Kind), l: seq<(string, Kind)>)
    ensures Wrap(Redir(c, x.0, x.1), l) == Wrap(c, [x] + l)
    decreases |l|
  {
    if l == [] {
      assert [x] + l == [x] && [x][..0] == [];
    } else {
      WrapFirst(c, x, l[..|l| - 1]);
      assert ([x] + l)[..|l|] == [x] + l[..|l| - 1];
    }
  }

  lemma OneTo(argv: seq<string>, wrap: seq<(string, Kind)>, ts: seq<Token>)
    requires NextRedir(ts) && |ts| >= 2 && ts[1].Word?
    ensures Args(argv, wrap, ts) == Args(argv, wrap + [(ts[1].text, KindOf(ts[0].c))], ts[2..])
  {
    hide Wrap;
  }

  lemma ArgsEnd(argv: seq<string>, wrap: seq<(string, Kind)>, rest: seq<Token>)
    requires NextStop(rest)
    ensures Args(argv, wrap, rest) == Ok(Wrap(Exec(argv), wrap), rest)
  {
    hide Wrap;
  }

  lemma RedirsStep(c: Cmd<string>, ts: seq<Token>)
    requires NextRedir(ts) && |ts| >= 2 && ts[1].Word?
    ensures Redirs(c, ts) == Redirs(Redir(c, ts[1].text, KindOf(ts[0].c)), ts[2..])
  {
  }

  lemma ItemIs(i: Item, more: seq<Token>)
    ensures var ts := ItemTokens(i) + more;
            match i
            case Arg(w) => ts != [] && ts[0] == Word(w) && ts[1..] == more
            case To(k, f) => |ts| >= 2 && NextRedir(ts) && KindOf(ts[0].c) == k && ts[1] == Word(f) && ts[2..] == more
  {
  }

  lemma {:induction false} ReadItems(argv: seq<string>, wrap: seq<(string, Kind)>, items: seq<Item>, rest: seq<Token>)
    requires |argv| + |ArgsOf(items)| < MAXARGS && NextStop(rest)
    ensures Args(argv, wrap, WriteItems(items) + rest)
            == Ok(Wrap(Exec(argv + ArgsOf(items)), wrap + TosOf(items)), rest)
    decreases |items|
  {
    hide Wrap, Args, NextStop, NextRedir, KindOf, ItemTokens;
    var ts := WriteItems(items) + rest;
    if items == [] {
      assert ts == rest && argv + [] == argv && wrap + [] == wrap;
      ArgsEnd(argv, wrap, rest);
    } else {
      var more := WriteItems(items[1..]) + rest;
      assert ts == ItemTokens(items[0]) + more;
      ItemIs(items[0], more);
      match items[0] {
        case Arg(w) =>
          OneWord(argv, wrap, ts);
          ReadItems(argv + [w], wrap, items[1..], rest);
          assert argv + [w] + ArgsOf(items[1..]) == argv + ArgsOf(items);
          assert [] + TosOf(items[1..]) == TosOf(items[1..]);
        case To(k, f) =>
          OneTo(argv, wrap, ts);
          ReadItems(argv, wrap + [(f, k)], items[1..], rest);
          assert wrap + [(f, k)] + TosOf(items[1..]) == wrap + TosOf(items);
          assert [] + ArgsOf(items[1..]) == ArgsOf(items[1..]);
      }
    }
  }

  lemma {:induction false} ReadTos(c: Cmd<string>, tos: seq<Item>, rest: seq<Token>)
    requires ArgsOf(tos) == [] && !NextRedir(rest)
    ensures Redirs(c, WriteItems(tos) + rest) == Ok(Redirected(c, tos), rest)
    decreases |tos|
  {
    var ts := WriteItems(tos) + rest;
    if tos == [] {
      assert ts == rest;
    } else {
      hide Redirs, NextRedir, KindOf, ItemTokens;
      var more := WriteItems(tos[1..]) + rest;
      assert ts == ItemTokens(tos[0]) + more;
      ItemIs(tos[0], more);
      RedirsStep(c, ts);
      ReadTos(Redir(c, tos[0].file, tos[0].kind), tos[1..], rest);
    }
  }

  lemma ReadPlain(items: seq<Item>, rest: seq<Token>)
    requires |ArgsOf(items)| < MAXARGS && NextStop(rest)
    ensures Simple(WriteItems(items) + rest) == Ok(Redirected(Exec(ArgsOf(items)), items), rest)
  {
    ReadItems([], [], items, rest);
    WrapIs(Exec(ArgsOf(items)), items);
    hide Args, Redirected, WriteItems, ArgsOf, TosOf, Simple, Wrap;
    assert [] + ArgsOf(items) == ArgsOf(items) && [] + TosOf(items) == TosOf(items);
    NoParenthesis(items, rest);
    SimpleIsArgs(WriteItems(items) + rest);
  }

  lemma {:induction false} ReadSimply(s: Simply, rest: seq<Token>)
    requires SimplyOk(s) && NextStop(rest)
    ensures Simple(WriteSimply(s) + rest) == Ok(SimplyMeans(s), rest)
    decreases s, 0
  {
    hide Simple, Redirs, Line, Redirected, WriteItems, ArgsOf, WriteLines, LinesMean, LinesOk;
    match s
    case Items(items) =>
      ReadPlain(items, rest);
    case Parens(l, tos) =>
      var after := WriteItems(tos) + rest;
      ReadLines(l, [Sym(')')] + after);
      BlockReads(WriteLines(l), LinesMean(l), after);
      ReadTos(LinesMean(l), tos, rest);
      assert WriteSimply(s) + rest == [Sym('(')] + (WriteLines(l) + ([Sym(')')] + after));
  }

  lemma BlockReads(body: seq<Token>, c: Cmd<string>, after: seq<Token>)
    requires Line(body + ([Sym(')')] + after)) == Ok(c, [Sym(')')] + after)
    ensures Simple([Sym('(')] + (body + ([Sym(')')] + after))) == Redirs(c, after)
  {
    hide Line, Redirs;
    var inner := body + ([Sym(')')] + after);
    assert ([Sym('(')] + inner)[0] == Sym('(') && ([Sym('(')] + inner)[1..] == inner;
    assert ([Sym(')')] + after)[1..] == after;
  }

  lemma NoParenthesis(items: seq<Item>, rest: seq<Token>)
    requires NextStop(rest)
    ensures !Next(WriteItems(items) + rest, '(')
  {
    if items != [] {
      assert (WriteItems(items) + rest)[0] == ItemTokens(items[0])[0];
    } else {
      assert WriteItems(items) + rest == rest;
    }
  }

  lemma {:induction false} ReadPiped(p: Piped, rest: seq<Token>)
    requires PipedOk(p) && NextStop(rest) && !Next(rest, '|')
    ensures Pipes(WritePiped(p) + rest) == Ok(PipedMeans(p), rest)
    decreases p, 1
  {
    hide Simple;
    match p
    case One(s) => ReadSimply(s, rest);
    case Bar(s, more) =>
      var after := [Sym('|')] + (WritePiped(more) + rest);
      ReadSimply(s, after);
      assert WritePiped(p) + rest == WriteSimply(s) + after;
      assert after[1..] == WritePiped(more) + rest;
      ReadPiped(more, rest);
  }

  lemma {:induction false} ReadBacks(c: Cmd<string>, n: nat, rest: seq<Token>)
    requires !Next(rest, '&')
    ensures Backs(c, Ampersands(n) + rest) == Ok(Behind(c, n), rest)
    decreases n
  {
    var ts := Ampersands(n) + rest;
    if n == 0 {
      assert ts == rest;
    } else {
      assert ts[0] == Sym('&') && ts[1..] == Ampersands(n - 1) + rest;
      ReadBacks(Back(c), n - 1, rest);
    }
  }

  lemma AfterPiped(n: nat, rest: seq<Token>)
    requires Ends(rest) || Next(rest, ';')
    ensures NextStop(Ampersands(n) + rest) && !Next(Ampersands(n) + rest, '|')
  {
    if n > 0 {
      assert (Ampersands(n) + rest)[0] == Sym('&');
    } else {
      assert Ampersands(n) + rest == rest;
    }
  }

  /** Followed by the end, or a closing parenthesis, a line is read as what it means. */
  lemma {:induction false} ReadLines(l: Lines, rest: seq<Token>)
    requires LinesOk(l) && Ends(rest)
    ensures Line(WriteLines(l) + rest) == Ok(LinesMean(l), rest)
    decreases l, 2
  {
    hide Pipes, Backs, WritePiped, Ampersands, PipedMeans, Behind, PipedOk;
    match l
    case Last(p, n) =>
      AfterPiped(n, rest);
      ReadPiped(p, Ampersands(n) + rest);
      ReadBacks(PipedMeans(p), n, rest);
      assert WriteLines(l) + rest == WritePiped(p) + (Ampersands(n) + rest);
    case Then(p, n, more) =>
      var after := [Sym(';')] + (WriteLines(more) + rest);
      AfterPiped(n, after);
      ReadPiped(p, Ampersands(n) + after);
      ReadBacks(PipedMeans(p), n, after);
      assert WriteLines(l) + rest == WritePiped(p) + (Ampersands(n) + after);
      assert after[1..] == WriteLines(more) + rest;
      ReadLines(more, rest);
  }

  // ----- what is read has been written -----

  lemma ItemOf(ts: seq<Token>)
    requires NextRedir(ts) && |ts| >= 2 && ts[1].Word?
    ensures ts == ItemTokens(To(KindOf(ts[0].c), ts[1].text)) + ts[2..]
  {
  }

  lemma {:induction false} ItemsOf(argv: seq<string>, wrap: seq<(string, Kind)>, ts: seq<Token>)
    returns (items: seq<Item>)
    requires |argv| < MAXARGS && Args(argv, wrap, ts).Ok?
    ensures var r := Args(argv, wrap, ts);
            && |argv| + |ArgsOf(items)| < MAXARGS && NextStop(r.rest) && ts == WriteItems(items) + r.rest
            && r.cmd == Wrap(Exec(argv + ArgsOf(items)), wrap + TosOf(items))
    decreases |ts|
  {
    hide Wrap, KindOf, ItemTokens;
    if NextRedir(ts) {
      OneTo(argv, wrap, ts);
      ItemOf(ts);
      hide Args;
      var x := (ts[1].text, KindOf(ts[0].c));
      var more := ItemsOf(argv, wrap + [x], ts[2..]);
      items := [To(x.1, x.0)] + more;
      assert items[1..] == more && wrap + [x] + TosOf(more) == wrap + TosOf(items) && [] + ArgsOf(more) == ArgsOf(more);
      assert ts == WriteItems(items) + Args(argv, wrap, ts).rest;
    } else if NextStop(ts) {
      items := [];
      assert argv + [] == argv && wrap + [] == wrap && [] + ts == ts;
    } else {
      OneWord(argv, wrap, ts);
      var more := ItemsOf(argv + [ts[0].text], wrap, ts[1..]);
      items := [Arg(ts[0].text)] + more;
      WordItem(ts);
      hide Args;
      assert items[1..] == more && argv + [ts[0].text] + ArgsOf(more) == argv + ArgsOf(items);
      assert [] + TosOf(more) == TosOf(more);
      assert ts == WriteItems(items) + Args(argv, wrap, ts).rest;
    }
  }

  lemma WordItem(ts: seq<Token>)
    requires ts != [] && ts[0].Word?
    ensures ts == ItemTokens(Arg(ts[0].text)) + ts[1..]
  {
  }

  lemma {:induction false} TosRead(c: Cmd<string>, ts: seq<Token>) returns (tos: seq<Item>)
    requires Redirs(c, ts).Ok?
    ensures var r := Redirs(c, ts);
            ArgsOf(tos) == [] && ts == WriteItems(tos) + r.rest && r.cmd == Redirected(c, tos)
    decreases |ts|
  {
    if NextRedir(ts) {
      var x := Redir(c, ts[1].text, KindOf(ts[0].c));
      var more := TosRead(x, ts[2..]);
      ItemOf(ts);
      hide KindOf, ItemTokens;
      tos := [To(x.kind, x.file)] + more;
      assert tos[1..] == more;
    } else {
      tos := [];
      assert [] + ts == ts;
    }
  }

  lemma SimpleIsArgs(ts: seq<Token>)
    requires !Next(ts, '(')
    ensures Simple(ts) == Args([], [], ts)
  {
    hide Args, Block;
  }

  lemma PlainRead(ts: seq<Token>) returns (s: Simply)
    requires !Next(ts, '(') && Simple(ts).Ok?
    ensures SimplyOk(s) && ts == WriteSimply(s) + Simple(ts).rest && Simple(ts).cmd == SimplyMeans(s)
  {
    SimpleIsArgs(ts);
    hide Redirected, Wrap, Simple, Args, ArgsOf, TosOf, WriteItems, NextStop;
    var items := ItemsOf([], [], ts);
    s := Items(items);
    WrapIs(Exec(ArgsOf(items)), items);
    assert [] + ArgsOf(items) == ArgsOf(items) && [] + TosOf(items) == TosOf(items);
  }

  lemma BlockFacts(ts: seq<Token>)
    requires Next(ts, '(') && Simple(ts).Ok?
    ensures Line(ts[1..]).Ok? && Next(Line(ts[1..]).rest, ')')
    ensures Simple(ts) == Redirs(Line(ts[1..]).cmd, Line(ts[1..]).rest[1..])
  {
    hide Line, Redirs;
  }

  lemma BlockWritten(ts: seq<Token>, body: seq<Token>, r: seq<Token>, tos: seq<Token>, rest: seq<Token>)
    requires Next(ts, '(') && ts[1..] == body + r && Next(r, ')') && r[1..] == tos + rest
    ensures ts == [Sym('(')] + body + [Sym(')')] + tos + rest
  {
    assert ts == [Sym('(')] + ts[1..] && r == [Sym(')')] + r[1..];
  }

  lemma {:induction false} SimplyRead(ts: seq<Token>) returns (s: Simply)
    requires Simple(ts).Ok?
    ensures SimplyOk(s) && ts == WriteSimply(s) + Simple(ts).rest && Simple(ts).cmd == SimplyMeans(s)
    decreases |ts|, 1
  {
    if Next(ts, '(') {
      BlockFacts(ts);
      hide Simple, Line, Redirs, Redirected, WriteLines, WriteItems, LinesMean, LinesOk, ArgsOf;
      var inner := Line(ts[1..]);
      var l := LinesRead(ts[1..]);
      var tos := TosRead(inner.cmd, inner.rest[1..]);
      s := Parens(l, tos);
      BlockWritten(ts, WriteLines(l), inner.rest, WriteItems(tos), Simple(ts).rest);
    } else {
      s := PlainRead(ts);
    }
  }

  lemma {:induction false} PipedRead(ts: seq<Token>) returns (p: Piped)
    requires Pipes(ts).Ok?
    ensures PipedOk(p) && ts == WritePiped(p) + Pipes(ts).rest && Pipes(ts).cmd == PipedMeans(p)
    decreases |ts|, 2
  {
    hide Simple;
    var r := Simple(ts);
    var s := SimplyRead(ts);
    if Next(r.rest, '|') {
      var more := PipedRead(r.rest[1..]);
      p := Bar(s, more);
      assert r.rest == [Sym('|')] + r.rest[1..];
    } else {
      p := One(s);
    }
  }

  lemma {:induction false} BacksRead(c: Cmd<string>, ts: seq<Token>) returns (n: nat)
    ensures ts == Ampersands(n) + Backs(c, ts).rest && Backs(c, ts).cmd == Behind(c, n)
    decreases |ts|
  {
    if Next(ts, '&') {
      var k := BacksRead(Back(c), ts[1..]);
      n := k + 1;
      assert ts == [Sym('&')] + ts[1..];
    } else {
      n := 0;
      assert [] + ts == ts;
    }
  }

  lemma {:induction false} LinesRead(ts: seq<Token>) returns (l: Lines)
    requires Line(ts).Ok?
    ensures LinesOk(l) && ts == WriteLines(l) + Line(ts).rest && Line(ts).cmd == LinesMean(l)
    decreases |ts|, 3
  {
    hide Pipes, Backs;
    var r := Pipes(ts);
    var p := PipedRead(ts);
    var b := Backs(r.cmd, r.rest);
    var n := BacksRead(r.cmd, r.rest);
    if Next(b.rest, ';') {
      var more := LinesRead(b.rest[1..]);
      l := Then(p, n, more);
      assert b.rest == [Sym(';')] + b.rest[1..];
    } else {
      l := Last(p, n);
    }
  }

  /** Exactly the lines the grammar allows are accepted, and each means what the grammar says: a pipe binds
      tighter than an ampersand, that tighter than a semicolon, and all of them to the right. */
  lemma ParsesExactly(ts: seq<Token>, c: Cmd<string>)
    ensures Command(ts) == Ok(c, [])
            <==> exists l: Lines {:trigger WriteLines(l)} :: LinesOk(l) && WriteLines(l) == ts && LinesMean(l) == c
  {
    hide Line, LinesMean, WriteLines, LinesOk;
    if Command(ts) == Ok(c, []) {
      var l := LinesRead(ts);
      assert WriteLines(l) + [] == WriteLines(l);
    }
    if l: Lines :| LinesOk(l) && WriteLines(l) == ts && LinesMean(l) == c {
      ReadLines(l, []);
      assert ts + [] == ts;
    }
  }

  lemma Accepted(ts: seq<Token>)
    ensures Command(ts).Ok? <==> exists l: Lines {:trigger WriteLines(l)} :: LinesOk(l) && WriteLines(l) == ts
    ensures forall l: Lines {:trigger WriteLines(l)} :: LinesOk(l) && WriteLines(l) == ts ==>
              Command(ts) == Ok(LinesMean(l), [])
  {
    hide Line, LinesMean, WriteLines, LinesOk;
    if Command(ts).Ok? {
      var l := LinesRead(ts);
      assert WriteLines(l) + [] == WriteLines(l);
    }
    forall l: Lines | LinesOk(l) && WriteLines(l) == ts
      ensures Command(ts) == Ok(LinesMean(l), [])
    {
      ReadLines(l, []);
      assert ts + [] == ts;
    }
  }

  /** The same for the text of a line. */
  lemma TextParses(l: Lines)
    requires LinesOk(l) && forall i :: 0 <= i < |WriteLines(l)| ==> ValidToken(WriteLines(l)[i])
    ensures Command(Lex(Text(WriteLines(l)))) == Ok(LinesMean(l), [])
  {
    hide Line, Lex, Text, LinesMean, WriteLines, LinesOk;
    LexText(WriteLines(l));
    ReadLines(l, []);
    assert WriteLines(l) + [] == WriteLines(l);
  }

  // ----- every command can be written, with parentheses only where they are needed -----

  function Depth(c: Cmd<string>): nat {
    match c
    case Exec(_) => 0
    case Redir(d, _, _) => Depth(d) + 1
    case Pipe(l, r) => Depth(l) + Depth(r) + 1
    case List(l, r) => Depth(l) + Depth(r) + 1
    case Back(d) => Depth(d) + 1
  }

  /** A command without its redirections, and these, the innermost first. */
  function Bare(c: Cmd<string>): (d: Cmd<string>)
    ensures !d.Redir? && Depth(d) <= Depth(c) && (c.Redir? ==> Depth(d) < Depth(c)) && (!c.Redir? ==> d == c)
  {
    if c.Redir? then Bare(c.cmd) else c
  }

  function TosAround(c: Cmd<string>): seq<Item> { if c.Redir? then TosAround(c.cmd) + [To(c.kind, c.file)] else [] }

  /** A command without its ampersands, and how many these are. */
  function Front(c: Cmd<string>): (d: Cmd<string>)
    ensures !d.Back? && Depth(d) <= Depth(c) && (c.Back? ==> Depth(d) < Depth(c)) && (!c.Back? ==> d == c)
  {
    if c.Back? then Front(c.cmd) else c
  }

  function BacksOf(c: Cmd<string>): nat { if c.Back? then BacksOf(c.cmd) + 1 else 0 }

  function ArgItems(argv: seq<string>): seq<Item> { if argv == [] then [] else [Arg(argv[0])] + ArgItems(argv[1..]) }

  function RenderSimply(c: Cmd<string>): Simply
    decreases Depth(c), if c.Pipe? then 2 else if c.List? || c.Back? then 1 else 0
  {
    if Bare(c).Exec? then Items(ArgItems(Bare(c).argv) + TosAround(c)) else Parens(Render(Bare(c)), TosAround(c))
  }

  function RenderPiped(c: Cmd<string>): Piped
    decreases Depth(c), if c.Pipe? then 0 else if c.List? || c.Back? then 2 else 1
  {
    if c.Pipe? then Bar(RenderSimply(c.left), RenderPiped(c.right)) else One(RenderSimply(c))
  }

  function Render(c: Cmd<string>): Lines
    decreases Depth(c), if c.Pipe? then 1 else if c.List? || c.Back? then 0 else 2
  {
    if c.List? then Then(RenderPiped(Front(c.left)), BacksOf(c.left), Render(c.right))
    else Last(RenderPiped(Front(c)), BacksOf(c))
  }

  lemma {:induction false} RedirectedMore(c: Cmd<string>, items: seq<Item>, k: Kind, f: string)
    ensures Redirected(c, items + [To(k, f)]) == Redir(Redirected(c, items), f, k)
    decreases |items|
  {
    if items == [] {
      assert [] + [To(k, f)] == [To(k, f)] && [To(k, f)][1..] == [];
    } else {
      assert (items + [To(k, f)])[1..] == items[1..] + [To(k, f)];
      RedirectedMore(if items[0].To? then Redir(c, items[0].file, items[0].kind) else c, items[1..], k, f);
    }
  }

  lemma {:induction false} RedirectedAround(c: Cmd<string>)
    ensures Redirected(Bare(c), TosAround(c)) == c && ArgsOf(TosAround(c)) == []
  {
    if c.Redir? {
      RedirectedAround(c.cmd);
      RedirectedMore(Bare(c), TosAround(c.cmd), c.kind, c.file);
      ArgsMore(TosAround(c.cmd), [To(c.kind, c.file)]);
    }
  }

  lemma {:induction false} ArgsMore(a: seq<Item>, b: seq<Item>)
    ensures ArgsOf(a + b) == ArgsOf(a) + ArgsOf(b)
    decreases |a|
  {
    if a == [] {
      assert [] + b == b;
    } else {
      assert (a + b)[1..] == a[1..] + b;
      ArgsMore(a[1..], b);
    }
  }

  lemma {:induction false} WordsOnly(argv: seq<string>)
    ensures ArgsOf(ArgItems(argv)) == argv
    decreases |argv|
  {
    if argv != [] {
      WordsOnly(argv[1..]);
      ArgsMore([Arg(argv[0])], ArgItems(argv[1..]));
      assert ArgsOf([Arg(argv[0])]) == [argv[0]];
    }
  }

  lemma {:induction false} WordsAround(c: Cmd<string>, argv: seq<string>, tos: seq<Item>)
    ensures Redirected(c, ArgItems(argv) + tos) == Redirected(c, tos)
    decreases |argv|
  {
    if argv == [] {
      assert [] + tos == tos;
    } else {
      WordsAround(c, argv[1..], tos);
      hide Redirected;
      FirstWord(c, argv[0], ArgItems(argv[1..]) + tos);
      var items := ArgItems(argv) + tos;
      assert items == [Arg(argv[0])] + (ArgItems(argv[1..]) + tos);
    }
  }

  lemma FirstWord(c: Cmd<string>, w: string, items: seq<Item>)
    ensures Redirected(c, [Arg(w)] + items) == Redirected(c, items)
  {
    assert ([Arg(w)] + items)[1..] == items;
  }

  lemma {:induction false} BehindMore(c: Cmd<string>, n: nat)
    ensures Behind(c, n + 1) == Back(Behind(c, n))
    decreases n
  {
    if n > 0 { BehindMore(Back(c), n - 1); }
  }

  lemma {:induction false} BehindFront(c: Cmd<string>)
    ensures Behind(Front(c), BacksOf(c)) == c
  {
    if c.Back? {
      BehindFront(c.cmd);
      BehindMore(Front(c), BacksOf(c.cmd));
    }
  }

  predicate FewWords(c: Cmd<string>) {
    match c
    case Exec(argv) => |argv| < MAXARGS
    case Redir(d, _, _) => FewWords(d)
    case Pipe(l, r) => FewWords(l) && FewWords(r)
    case List(l, r) => FewWords(l) && FewWords(r)
    case Back(d) => FewWords(d)
  }

  lemma {:induction false} FewParts(c: Cmd<string>)
    requires FewWords(c)
    ensures FewWords(Bare(c)) && FewWords(Front(c))
  {
    match c
    case Redir(d, _, _) => FewParts(d);
    case Back(d) => FewParts(d);
    case _ =>
  }

  lemma {:induction false} SimplyStands(c: Cmd<string>)
    requires FewWords(c)
    ensures SimplyOk(RenderSimply(c)) && SimplyMeans(RenderSimply(c)) == c
    decreases Depth(c), if c.Pipe? then 2 else if c.List? || c.Back? then 1 else 0
  {
    FewParts(c);
    RedirectedAround(c);
    if Bare(c).Exec? {
      var argv := Bare(c).argv;
      WordsOnly(argv);
      WordsAround(Bare(c), argv, TosAround(c));
      ArgsMore(ArgItems(argv), TosAround(c));
      assert argv + [] == argv;
    } else {
      RenderStands(Bare(c));
    }
  }

  lemma {:induction false} PipedStands(c: Cmd<string>)
    requires FewWords(c)
    ensures PipedOk(RenderPiped(c)) && PipedMeans(RenderPiped(c)) == c
    decreases Depth(c), if c.Pipe? then 0 else if c.List? || c.Back? then 2 else 1
  {
    hide RenderSimply, SimplyMeans, SimplyOk;
    if c.Pipe? {
      SimplyStands(c.left);
      PipedStands(c.right);
    } else {
      SimplyStands(c);
    }
  }

  lemma {:induction false} RenderStands(c: Cmd<string>)
    requires FewWords(c)
    ensures LinesOk(Render(c)) && LinesMean(Render(c)) == c
    decreases Depth(c), if c.Pipe? then 1 else if c.List? || c.Back? then 0 else 2
  {
    hide RenderPiped, PipedMeans, PipedOk;
    if c.List? {
      FewParts(c.left);
      PipedStands(Front(c.left));
      BehindFront(c.left);
      RenderStands(c.right);
    } else {
      FewParts(c);
      PipedStands(Front(c));
      BehindFront(c);
    }
  }

  /** Every command of at most nine words a part, written with parentheses only where a part stands in a
      place its own form does not fit, is read back. */
  lemma RenderParses(c: Cmd<string>)
    requires FewWords(c)
    ensures Command(WriteLines(Render(c))) == Ok(c, [])
  {
    hide Line, LinesMean, WriteLines, LinesOk, Render;
    RenderStands(c);
    ReadLines(Render(c), []);
    assert WriteLines(Render(c)) + [] == WriteLines(Render(c));
  }
}
