/** The command language of sh.c: tokens, a parser on tokens, and the text of a command. */
module ShellSyntax {

  const MAXARGS: nat := 10

  // ----- tokens -----

  const VT: char := 11 as char

  predicate Space(c: char) { c == ' ' || c == '\t' || c == '\r' || c == '\n' || c == VT }

  predicate Symbol(c: char) { c == '<' || c == '|' || c == '>' || c == '&' || c == ';' || c == '(' || c == ')' }

  predicate Plain(c: char) { !Space(c) && !Symbol(c) }

  /** '+' stands for >>. */
  datatype Token = Sym(c: char) | Word(text: string)

  /** How many plain characters the text starts with. */
  function WordLength(s: string): (n: nat)
    ensures n <= |s| && (forall i :: 0 <= i < n ==> Plain(s[i])) && (n < |s| ==> !Plain(s[n]))
  {
    if s == "" || !Plain(s[0]) then 0 else 1 + WordLength(s[1..])
  }

  function Lex(s: string): seq<Token> {
    if s == "" then []
    else if Space(s[0]) then Lex(s[1..])
    else if s[0] == '>' && |s| > 1 && s[1] == '>' then [Sym('+')] + Lex(s[2..])
    else if Symbol(s[0]) then [Sym(s[0])] + Lex(s[1..])
    else [Word(s[..WordLength(s)])] + Lex(s[WordLength(s)..])
  }

  // ----- commands -----

  datatype Kind = Input | Output | Append

  /** A command whose words are of type W: texts, or places in the line typed. */
  datatype Cmd<W> =
    | Exec(argv: seq<W>)
    | Redir(cmd: Cmd<W>, file: W, kind: Kind)
    | Pipe(left: Cmd<W>, right: Cmd<W>)
    | List(left: Cmd<W>, right: Cmd<W>)
    | Back(cmd: Cmd<W>)

  function KindOf(c: char): Kind { if c == '<' then Input else if c == '>' then Output else Append }

  function SymOf(k: Kind): char { match k case Input => '<' case Output => '>' case Append => '+' }

  // ----- the parser on tokens -----

  datatype Parsed = Ok(cmd: Cmd<string>, rest: seq<Token>) | Err

  predicate Next(ts: seq<Token>, c: char) { ts != [] && ts[0] == Sym(c) }

  predicate NextRedir(ts: seq<Token>) { Next(ts, '<') || Next(ts, '>') || Next(ts, '+') }

  predicate NextStop(ts: seq<Token>) { ts == [] || Next(ts, '|') || Next(ts, ')') || Next(ts, '&') || Next(ts, ';') }

  function Redirs(cmd: Cmd<string>, ts: seq<Token>): (r: Parsed)
    ensures r.Ok? ==> |r.rest| <= |ts|
    decreases |ts|
  {
    if !NextRedir(ts) then Ok(cmd, ts)
    else if |ts| < 2 || !ts[1].Word? then Err
    else Redirs(Redir(cmd, ts[1].text, KindOf(ts[0].c)), ts[2..])
  }

  /** The words and redirections of a simple command; `wrap` are the redirections so far. */
  function Args(argv: seq<string>, wrap: seq<(string, Kind)>, ts: seq<Token>): (r: Parsed)
    ensures r.Ok? ==> |r.rest| <= |ts|
    decreases |ts|
  {
    if NextRedir(ts) then
      if |ts| < 2 || !ts[1].Word? then Err else Args(argv, wrap + [(ts[1].text, KindOf(ts[0].c))], ts[2..])
    else if NextStop(ts) then Ok(Wrap(Exec(argv), wrap), ts)
    else if !ts[0].Word? || |argv| + 1 >= MAXARGS then Err
    else Args(argv + [ts[0].text], wrap, ts[1..])
  }

  /** The first redirection is the innermost. */
  function Wrap<W>(cmd: Cmd<W>, wrap: seq<(W, Kind)>): Cmd<W>
    decreases |wrap|
  {
    if wrap == [] then cmd else Redir(Wrap(cmd, wrap[..|wrap| - 1]), wrap[|wrap| - 1].0, wrap[|wrap| - 1].1)
  }

  function Line(ts: seq<Token>): (r: Parsed)
    ensures r.Ok? ==> |r.rest| <= |ts|
    decreases |ts|, 3
  {
    match Pipes(ts)
    case Err => Err
    case Ok(c, rest) =>
      match Backs(c, rest)
      case Err => Err
      case Ok(c1, rest1) =>
        if !Next(rest1, ';') then Ok(c1, rest1)
        else match Line(rest1[1..])
             case Err => Err
             case Ok(c2, rest2) => Ok(List(c1, c2), rest2)
  }

  function Backs(cmd: Cmd<string>, ts: seq<Token>): (r: Parsed)
    ensures r.Ok? && |r.rest| <= |ts|
    decreases |ts|
  {
    if Next(ts, '&') then Backs(Back(cmd), ts[1..]) else Ok(cmd, ts)
  }

  function Pipes(ts: seq<Token>): (r: Parsed)
    ensures r.Ok? ==> |r.rest| <= |ts|
    decreases |ts|, 2
  {
    match Simple(ts)
    case Err => Err
    case Ok(c, rest) =>
      if !Next(rest, '|') then Ok(c, rest)
      else match Pipes(rest[1..])
           case Err => Err
           case Ok(c2, rest2) => Ok(Pipe(c, c2), rest2)
  }

  function Simple(ts: seq<Token>): (r: Parsed)
    ensures r.Ok? ==> |r.rest| <= |ts|
    decreases |ts|, 1
  {
    if Next(ts, '(') then Block(ts) else Args([], [], ts)
  }

  function Block(ts: seq<Token>): (r: Parsed)
    requires Next(ts, '(')
    ensures r.Ok? ==> |r.rest| < |ts|
    decreases |ts|, 0
  {
    match Line(ts[1..])
    case Err => Err
    case Ok(c, rest) => if Next(rest, ')') then Redirs(c, rest[1..]) else Err
  }

  /** A whole line: nothing may be left over. */
  function Command(ts: seq<Token>): Parsed {
    match Line(ts)
    case Err => Err
    case Ok(c, rest) => if rest == [] then Ok(c, rest) else Err
  }

  // ----- the text of a command -----

  predicate Wordy(w: string) { w != "" && forall i :: 0 <= i < |w| ==> Plain(w[i]) && w[i] != '\0' }

  predicate WellFormed(c: Cmd<string>) {
    match c
    case Exec(argv) => |argv| < MAXARGS && forall i :: 0 <= i < |argv| ==> Wordy(argv[i])
    case Redir(d, f, _) => WellFormed(d) && Wordy(f)
    case Pipe(l, r) => WellFormed(l) && WellFormed(r)
    case List(l, r) => WellFormed(l) && WellFormed(r)
    case Back(d) => WellFormed(d)
  }

  function Words(argv: seq<string>): seq<Token>
    decreases |argv|
  {
    if argv == [] then [] else [Word(argv[0])] + Words(argv[1..])
  }

  function InParens(ts: seq<Token>): seq<Token> { [Sym('(')] + ts + [Sym(')')] }

  /** A command with every part in parentheses. */
  function Tokens(c: Cmd<string>): seq<Token> {
    match c
    case Exec(argv) => Words(argv)
    case Redir(d, f, k) => InParens(Tokens(d)) + [Sym(SymOf(k)), Word(f)]
    case Pipe(l, r) => InParens(Tokens(l)) + [Sym('|')] + InParens(Tokens(r))
    case List(l, r) => InParens(Tokens(l)) + [Sym(';')] + InParens(Tokens(r))
    case Back(d) => InParens(Tokens(d)) + [Sym('&')]
  }

  function Spell(t: Token): string {
    match t
    case Sym(c) => if c == '+' then ">>" else [c]
    case Word(w) => w
  }

  function Text(ts: seq<Token>): string
    decreases |ts|
  {
    if ts == [] then "" else Spell(ts[0]) + " " + Text(ts[1..])
  }

  predicate ValidToken(t: Token) {
    match t
    case Sym(c) => Symbol(c) || c == '+'
    case Word(w) => Wordy(w)
  }

  // ----- round trip -----

  lemma LexWord(w: string, s: string)
    requires Wordy(w) && (s == "" || !Plain(s[0]))
    ensures Lex(w + s) == [Word(w)] + Lex(s)
  {
    var t := w + s;
    assert t[0] == w[0];
    WordLengthIs(t, |w|);
    assert t[..|w|] == w && t[|w|..] == s;
  }

  lemma WordLengthIs(s: string, n: nat)
    requires n <= |s| && (forall i :: 0 <= i < n ==> Plain(s[i])) && (n < |s| ==> !Plain(s[n]))
    ensures WordLength(s) == n
  {
  }

  /** The text of a list of tokens has just those tokens. */
  lemma {:induction false} LexText(ts: seq<Token>)
    requires forall i :: 0 <= i < |ts| ==> ValidToken(ts[i])
    ensures Lex(Text(ts)) == ts
    decreases |ts|
  {
    if ts != [] {
      var rest := Text(ts[1..]);
      LexText(ts[1..]);
      assert Lex(" " + rest) == Lex(rest) by { assert (" " + rest)[1..] == rest; }
      assert Text(ts) == Spell(ts[0]) + (" " + rest);
      match ts[0] {
        case Word(w) => LexWord(w, " " + rest);
        case Sym(c) => LexSym(c, " " + rest);
      }
    }
  }

  lemma LexSym(c: char, s: string)
    requires (Symbol(c) || c == '+') && s != "" && s[0] == ' '
    ensures Lex(Spell(Sym(c)) + s) == [Sym(c)] + Lex(s)
  {
    var t := Spell(Sym(c)) + s;
    if c == '+' {
      assert t[0] == '>' && t[1] == '>' && t[2..] == s;
    } else {
      assert t[0] == c && t[1..] == s && t[1] == ' ';
    }
  }

  /** What may follow a command: the end, or a closing parenthesis. */
  predicate Ends(rest: seq<Token>) { rest == [] || Next(rest, ')') }

  lemma OneWord(argv: seq<string>, wrap: seq<(string, Kind)>, ts: seq<Token>)
    requires |argv| + 1 < MAXARGS && ts != [] && ts[0].Word?
    ensures Args(argv, wrap, ts) == Args(argv + [ts[0].text], wrap, ts[1..])
  {
    hide Wrap;
    assert !NextRedir(ts) && !NextStop(ts);
  }

  lemma NoWord(argv: seq<string>, rest: seq<Token>)
    requires Ends(rest)
    ensures Args(argv, [], rest) == Ok(Exec(argv), rest)
  {
  }

  lemma {:induction false} ParseWords(argv: seq<string>, k: nat, rest: seq<Token>)
    requires k <= |argv| < MAXARGS && Ends(rest)
    ensures Args(argv[..k], [], Words(argv[k..]) + rest) == Ok(Exec(argv), rest)
    decreases |argv| - k
  {
    hide Args, Wrap, Ends;
    var ts := Words(argv[k..]) + rest;
    if k == |argv| {
      assert argv[k..] == [] && ts == rest && argv[..k] == argv;
      NoWord(argv, rest);
    } else {
      assert argv[k..][1..] == argv[k + 1..];
      assert ts[0] == Word(argv[k]) && ts[1..] == Words(argv[k + 1..]) + rest;
      assert argv[..k + 1] == argv[..k] + [argv[k]];
      OneWord(argv[..k], [], ts);
      ParseWords(argv, k + 1, rest);
    }
  }

  lemma ParseParens(c: Cmd<string>, rest: seq<Token>)
    requires Line(Tokens(c) + [Sym(')')] + rest) == Ok(c, [Sym(')')] + rest)
    ensures Simple(InParens(Tokens(c)) + rest) == Redirs(c, rest)
  {
    var ts := InParens(Tokens(c)) + rest;
    assert ts[0] == Sym('(') && ts[1..] == Tokens(c) + [Sym(')')] + rest;
    assert ([Sym(')')] + rest)[1..] == rest;
  }

  /** A part in parentheses with nothing more after it. */
  lemma Alone(r: Cmd<string>, rest: seq<Token>)
    requires Simple(InParens(Tokens(r)) + rest) == Redirs(r, rest) && Ends(rest)
    ensures Pipes(InParens(Tokens(r)) + rest) == Line(InParens(Tokens(r)) + rest) == Ok(r, rest)
  {
    hide Simple, Tokens, InParens;
  }

  lemma ParsePipe(l: Cmd<string>, r: Cmd<string>, rest: seq<Token>)
    requires Ends(rest)
    requires var after := [Sym('|')] + (InParens(Tokens(r)) + rest);
             Simple(InParens(Tokens(l)) + after) == Redirs(l, after)
    requires Simple(InParens(Tokens(r)) + rest) == Redirs(r, rest)
    ensures Line(Tokens(Pipe(l, r)) + rest) == Ok(Pipe(l, r), rest)
  {
    hide Simple, InParens;
    var after := [Sym('|')] + (InParens(Tokens(r)) + rest);
    Alone(r, rest);
    assert Tokens(Pipe(l, r)) + rest == InParens(Tokens(l)) + after;
    assert after[1..] == InParens(Tokens(r)) + rest;
    assert Pipes(InParens(Tokens(l)) + after) == Ok(Pipe(l, r), rest);
  }

  lemma ParseList(l: Cmd<string>, r: Cmd<string>, rest: seq<Token>)
    requires Ends(rest)
    requires var after := [Sym(';')] + (InParens(Tokens(r)) + rest);
             Simple(InParens(Tokens(l)) + after) == Redirs(l, after)
    requires Simple(InParens(Tokens(r)) + rest) == Redirs(r, rest)
    ensures Line(Tokens(List(l, r)) + rest) == Ok(List(l, r), rest)
  {
    hide Simple, InParens;
    var after := [Sym(';')] + (InParens(Tokens(r)) + rest);
    Alone(r, rest);
    assert Tokens(List(l, r)) + rest == InParens(Tokens(l)) + after;
    assert after[1..] == InParens(Tokens(r)) + rest;
    assert Pipes(InParens(Tokens(l)) + after) == Ok(l, after);
  }

  lemma ParseBack(d: Cmd<string>, rest: seq<Token>)
    requires Ends(rest)
    requires var after := [Sym('&')] + rest; Simple(InParens(Tokens(d)) + after) == Redirs(d, after)
    ensures Line(Tokens(Back(d)) + rest) == Ok(Back(d), rest)
  {
    hide Simple, InParens;
    var after := [Sym('&')] + rest;
    assert Tokens(Back(d)) + rest == InParens(Tokens(d)) + after;
    assert after[1..] == rest;
    assert Pipes(InParens(Tokens(d)) + after) == Ok(d, after);
    assert Backs(d, after) == Backs(Back(d), rest) == Ok(Back(d), rest);
  }

  lemma ParseRedir(d: Cmd<string>, f: string, k: Kind, rest: seq<Token>)
    requires Ends(rest)
    requires var after := [Sym(SymOf(k)), Word(f)] + rest; Simple(InParens(Tokens(d)) + after) == Redirs(d, after)
    ensures Line(Tokens(Redir(d, f, k)) + rest) == Ok(Redir(d, f, k), rest)
  {
    hide Simple, InParens;
    var after := [Sym(SymOf(k)), Word(f)] + rest;
    assert Tokens(Redir(d, f, k)) + rest == InParens(Tokens(d)) + after;
    assert after[2..] == rest;
    assert Redirs(d, after) == Redirs(Redir(d, f, k), rest) == Ok(Redir(d, f, k), rest);
  }

  lemma ParseExec(argv: seq<string>, rest: seq<Token>)
    requires |argv| < MAXARGS && Ends(rest)
    ensures Line(Tokens(Exec(argv)) + rest) == Ok(Exec(argv), rest)
  {
    ParseWords(argv, 0, rest);
    assert argv[..0] == [] && argv[0..] == argv;
    var ts := Words(argv) + rest;
    assert argv == [] ==> ts == rest;
    assert Simple(ts) == Ok(Exec(argv), rest);
    assert Pipes(ts) == Ok(Exec(argv), rest);
  }

  /** Parsing the fully parenthesised form of a command gives the command back. */
  lemma {:induction false} ParseTokens(c: Cmd<string>, rest: seq<Token>)
    requires WellFormed(c) && Ends(rest)
    ensures Line(Tokens(c) + rest) == Ok(c, rest)
    decreases c, 0
  {
    hide Line, Tokens, Simple, Redirs, InParens;
    match c
    case Exec(argv) =>
      ParseExec(argv, rest);
    case Redir(d, f, k) =>
      ParsePart(d, [Sym(SymOf(k)), Word(f)] + rest);
      ParseRedir(d, f, k, rest);
    case Pipe(l, r) =>
      ParsePart(l, [Sym('|')] + (InParens(Tokens(r)) + rest));
      ParsePart(r, rest);
      ParsePipe(l, r, rest);
    case List(l, r) =>
      ParsePart(l, [Sym(';')] + (InParens(Tokens(r)) + rest));
      ParsePart(r, rest);
      ParseList(l, r, rest);
    case Back(d) =>
      ParsePart(d, [Sym('&')] + rest);
      ParseBack(d, rest);
  }

  lemma {:induction false} ParsePart(d: Cmd<string>, after: seq<Token>)
    requires WellFormed(d)
    ensures Simple(InParens(Tokens(d)) + after) == Redirs(d, after)
    decreases d, 1
  {
    ParseTokens(d, [Sym(')')] + after);
    assert Tokens(d) + ([Sym(')')] + after) == Tokens(d) + [Sym(')')] + after;
    ParseParens(d, after);
  }

  lemma {:induction false} TokensValid(c: Cmd<string>)
    requires WellFormed(c)
    ensures forall i :: 0 <= i < |Tokens(c)| ==> ValidToken(Tokens(c)[i])
    decreases c
  {
    match c
    case Exec(argv) => WordsValid(argv);
    case Redir(d, _, _) => TokensValid(d);
    case Pipe(l, r) => TokensValid(l); TokensValid(r);
    case List(l, r) => TokensValid(l); TokensValid(r);
    case Back(d) => TokensValid(d);
  }

  lemma {:induction false} WordsValid(argv: seq<string>)
    requires forall i :: 0 <= i < |argv| ==> Wordy(argv[i])
    ensures forall i :: 0 <= i < |Words(argv)| ==> ValidToken(Words(argv)[i])
    decreases |argv|
  {
    if argv != [] { WordsValid(argv[1..]); }
  }

  /** The text of every command, of at most nine words per simple command, parses to it. */
  lemma RoundTrip(c: Cmd<string>)
    requires WellFormed(c)
    ensures Command(Lex(Text(Tokens(c)))) == Ok(c, [])
  {
    TokensValid(c);
    LexText(Tokens(c));
    ParseTokens(c, []);
    assert Tokens(c) + [] == Tokens(c);
  }
}
