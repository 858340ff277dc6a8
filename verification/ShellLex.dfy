/** The tokens of a line, however it is spaced. */
module ShellLex {
  import opened ShellSyntax

  /** A token and the white space before it. */
  datatype Piece = Piece(gap: string, token: Token)

  predicate Blank(s: string) { forall i :: 0 <= i < |s| ==> Space(s[i]) }

  /** A token that can occur in a line. */
  predicate Possible(t: Token) {
    match t
    case Sym(c) => Symbol(c) || c == '+'
    case Word(w) => w != "" && forall i :: 0 <= i < |w| ==> Plain(w[i])
  }

  /** Tokens that would run together if nothing stood between them. */
  predicate Merge(a: Token, b: Token) { (a.Word? && b.Word?) || (a == Sym('>') && b in {Sym('>'), Sym('+')}) }

  predicate PiecesOk(ps: seq<Piece>) {
    ps == []
    || (&& Blank(ps[0].gap) && Possible(ps[0].token) && PiecesOk(ps[1..])
        && (|ps| > 1 && Merge(ps[0].token, ps[1].token) ==> ps[1].gap != ""))
  }

  function Join(ps: seq<Piece>, end: string): string {
    if ps == [] then end else ps[0].gap + Spell(ps[0].token) + Join(ps[1..], end)
  }

  function TokensOf(ps: seq<Piece>): seq<Token> {
    if ps == [] then [] else [ps[0].token] + TokensOf(ps[1..])
  }

  lemma {:induction false} LexBlank(gap: string, s: string)
    requires Blank(gap)
    ensures Lex(gap + s) == Lex(s)
    decreases |gap|
  {
    if gap == "" {
      assert gap + s == s;
    } else {
      assert (gap + s)[0] == gap[0] && (gap + s)[1..] == gap[1..] + s;
      LexBlank(gap[1..], s);
    }
  }

  /** What stands after a token does not run together with it. */
  predicate Separate(t: Token, s: string) {
    && (t.Word? && s != "" ==> !Plain(s[0]))
    && (t == Sym('>') && s != "" ==> s[0] != '>')
  }

  lemma LexToken(t: Token, s: string)
    requires Possible(t) && Separate(t, s)
    ensures Lex(Spell(t) + s) == [t] + Lex(s)
  {
    var u := Spell(t) + s;
    match t
    case Word(w) =>
      assert u[0] == w[0];
      WordLengthIs(u, |w|);
      assert u[..|w|] == w && u[|w|..] == s;
    case Sym(c) =>
      if c == '+' {
        assert u[0] == '>' && u[1] == '>' && u[2..] == s;
      } else {
        assert u[0] == c && u[1..] == s;
      }
  }

  lemma JoinStarts(ps: seq<Piece>, end: string, t: Token)
    requires PiecesOk(ps) && Blank(end) && (ps != [] && Merge(t, ps[0].token) ==> ps[0].gap != "")
    ensures Separate(t, Join(ps, end))
  {
    if ps == [] {
      assert end != "" ==> Space(end[0]);
    } else if ps[0].gap != "" {
      assert Join(ps, end)[0] == ps[0].gap[0];
    } else {
      assert Join(ps, end)[0] == Spell(ps[0].token)[0];
    }
  }

  lemma {:induction false} LexJoin(ps: seq<Piece>, end: string)
    requires PiecesOk(ps) && Blank(end)
    ensures Lex(Join(ps, end)) == TokensOf(ps)
    decreases |ps|
  {
    hide Lex;
    if ps == [] {
      LexBlank(end, "");
      assert end + "" == end;
      LexNothing();
    } else {
      var rest := Join(ps[1..], end);
      LexJoin(ps[1..], end);
      JoinStarts(ps[1..], end, ps[0].token);
      LexToken(ps[0].token, rest);
      LexBlank(ps[0].gap, Spell(ps[0].token) + rest);
      assert Join(ps, end) == ps[0].gap + (Spell(ps[0].token) + rest);
    }
  }

  lemma LexNothing()
    ensures Lex("") == []
  {
  }

  lemma Extended(c: char, ps: seq<Piece>, end: string) returns (ps': seq<Piece>, end': string)
    requires Space(c) && PiecesOk(ps) && Blank(end)
    ensures PiecesOk(ps') && Blank(end') && Join(ps', end') == [c] + Join(ps, end) && TokensOf(ps') == TokensOf(ps)
  {
    if ps == [] {
      ps', end' := [], [c] + end;
    } else {
      ps', end' := [Piece([c] + ps[0].gap, ps[0].token)] + ps[1..], end;
      assert ps'[1..] == ps[1..];
    }
  }

  lemma Prefixed(t: Token, ps: seq<Piece>, end: string, s: string)
    requires Possible(t) && PiecesOk(ps) && Blank(end) && s == Join(ps, end) && Separate(t, s)
    ensures var ps' := [Piece("", t)] + ps;
            PiecesOk(ps') && Join(ps', end) == Spell(t) + s && TokensOf(ps') == [t] + TokensOf(ps)
  {
    var ps' := [Piece("", t)] + ps;
    assert ps'[1..] == ps;
    if ps != [] && ps[0].gap == "" {
      assert s[0] == Spell(ps[0].token)[0];
    }
  }

  /** Every line is made of its tokens and white space. */
  lemma {:induction false} LexCut(s: string) returns (ps: seq<Piece>, end: string)
    ensures PiecesOk(ps) && Blank(end) && Join(ps, end) == s && TokensOf(ps) == Lex(s)
    decreases |s|
  {
    if s == "" {
      ps, end := [], "";
    } else if Space(s[0]) {
      ps, end := LexCut(s[1..]);
      ps, end := Extended(s[0], ps, end);
      assert s == [s[0]] + s[1..];
    } else {
      var t, n := FirstToken(s);
      ps, end := LexCut(s[n..]);
      Prefixed(t, ps, end, s[n..]);
      ps := [Piece("", t)] + ps;
    }
  }

  lemma FirstToken(s: string) returns (t: Token, n: nat)
    requires s != "" && !Space(s[0])
    ensures 0 < n <= |s| && Possible(t) && s == Spell(t) + s[n..] && Separate(t, s[n..]) && Lex(s) == [t] + Lex(s[n..])
  {
    if s[0] == '>' && |s| > 1 && s[1] == '>' {
      t, n := Sym('+'), 2;
      assert s == ">>" + s[2..];
    } else if Symbol(s[0]) {
      t, n := Sym(s[0]), 1;
      assert s == [s[0]] + s[1..];
    } else {
      t, n := Word(s[..WordLength(s)]), WordLength(s);
    }
  }

  /** The tokens of a line are those it is spelled with, whatever white space stands between them, as long
      as two that would run together are kept apart. */
  lemma LexExactly(s: string, ts: seq<Token>)
    ensures Lex(s) == ts <==> exists ps: seq<Piece>, end: string {:trigger Join(ps, end)} ::
                                PiecesOk(ps) && Blank(end) && Join(ps, end) == s && TokensOf(ps) == ts
  {
    hide Lex, PiecesOk, Join, TokensOf;
    if Lex(s) == ts {
      var ps, end := LexCut(s);
    }
    if ps: seq<Piece>, end: string :| PiecesOk(ps) && Blank(end) && Join(ps, end) == s && TokensOf(ps) == ts {
      LexJoin(ps, end);
    }
  }
}
