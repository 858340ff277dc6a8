/** grep.c: the regular expression matcher and the loop that finds lines. */
module Grep {

  // ----- what a pattern means -----

  datatype Item = One(c: char) | Many(c: char) | End

  /** A pattern read from left to right: x* for any x, $ at the very end, else one character. */
  function Items(re: string): seq<Item> {
    if re == "" then []
    else if |re| > 1 && re[1] == '*' then [Many(re[0])] + Items(re[2..])
    else if re == "$" then [End]
    else [One(re[0])] + Items(re[1..])
  }

  predicate Fits(c: char, x: char) { c == '.' || c == x }

  predicate AllFit(c: char, w: string) { forall i :: 0 <= i < |w| ==> Fits(c, w[i]) }

  /** The language of a pattern. */
  ghost predicate In(items: seq<Item>, w: string)
    decreases |items|
  {
    if items == [] then w == ""
    else match items[0]
         case One(c) => w != "" && Fits(c, w[0]) && In(items[1..], w[1..])
         case Many(c) => exists k: nat {:trigger Repeats(c, w, k)} :: Repeats(c, w, k) && In(items[1..], w[k..])
         case End => w == "" && In(items[1..], w)
  }

  predicate Repeats(c: char, w: string, k: nat) { k <= |w| && AllFit(c, w[..k]) }

  predicate Anchored(items: seq<Item>) { items != [] && items[|items| - 1] == End }

  /** Some prefix of the text is in the language; all of it if the pattern ends in $. */
  ghost predicate HereSpec(re: string, text: string) {
    exists n: nat {:trigger text[..n]} ::
      n <= |text| && In(Items(re), text[..n]) && (Anchored(Items(re)) ==> n == |text|)
  }

  /** Some suffix of the text has such a prefix; the whole text under ^. */
  ghost predicate MatchSpec(re: string, text: string) {
    if re != "" && re[0] == '^' then HereSpec(re[1..], text)
    else exists s: nat {:trigger text[s..]} :: s <= |text| && HereSpec(re, text[s..])
  }

  // ----- the language, character by character -----

  lemma HereEmpty(text: string)
    ensures HereSpec("", text)
  {
    assert text[..0] == "";
  }

  lemma HereEnd(text: string)
    ensures HereSpec("$", text) <==> text == ""
  {
    if HereSpec("$", text) {
      var n: nat :| n <= |text| && In(Items("$"), text[..n]) && n == |text|;
      assert text[..n] == text;
    }
    assert text == "" ==> text[..0] == text;
  }

  lemma HereOne(re: string, text: string)
    requires re != "" && !(|re| > 1 && re[1] == '*') && re != "$"
    ensures HereSpec(re, text) <==> text != "" && Fits(re[0], text[0]) && HereSpec(re[1..], text[1..])
  {
    var rest := Items(re[1..]);
    assert Items(re) == [One(re[0])] + rest && Items(re)[1..] == rest;
    if HereSpec(re, text) {
      var n: nat :| n <= |text| && In(Items(re), text[..n]) && (Anchored(Items(re)) ==> n == |text|);
      assert text[..n][1..] == text[1..][..n - 1];
    }
    if text != "" && Fits(re[0], text[0]) && HereSpec(re[1..], text[1..]) {
      var n: nat :| n <= |text| - 1 && In(rest, text[1..][..n]) && (Anchored(rest) ==> n == |text| - 1);
      assert text[..n + 1][1..] == text[1..][..n];
      assert text[..n + 1][0] == text[0];
    }
  }

  /** c* takes some of the leading characters that fit, and the rest goes on from there. */
  lemma HereMany(re: string, text: string)
    requires |re| > 1 && re[1] == '*'
    ensures HereSpec(re, text) <==> exists k: nat {:trigger Repeats(re[0], text, k)} ::
            Repeats(re[0], text, k) && HereSpec(re[2..], text[k..])
  {
    var c, rest := re[0], Items(re[2..]);
    assert Items(re) == [Many(c)] + rest && Items(re)[1..] == rest;
    if HereSpec(re, text) {
      var n: nat :| n <= |text| && In(Items(re), text[..n]) && (Anchored(Items(re)) ==> n == |text|);
      var k: nat :| Repeats(c, text[..n], k) && In(rest, text[..n][k..]);
      assert text[..n][..k] == text[..k] && text[..n][k..] == text[k..][..n - k];
      assert Repeats(c, text, k) && HereSpec(re[2..], text[k..]);
    }
    if k: nat :| Repeats(c, text, k) && HereSpec(re[2..], text[k..]) {
      var n: nat :| n <= |text| - k && In(rest, text[k..][..n]) && (Anchored(rest) ==> n == |text| - k);
      assert text[..k + n][..k] == text[..k] && text[..k + n][k..] == text[k..][..n];
      assert Repeats(c, text[..k + n], k);
    }
  }

  // ----- match, matchhere, matchstar -----

  method Match(re: string, text: string) returns (r: bool)
    ensures r <==> MatchSpec(re, text)
  {
    if re != "" && re[0] == '^' {
      r := Matchhere(re[1..], text);
      return;
    }
    var t := 0;
    while true
      invariant t <= |text| && forall s: nat {:trigger text[s..]} :: s < t ==> !HereSpec(re, text[s..])
      decreases |text| - t
    {
      var here := Matchhere(re, text[t..]);
      if here {
        return true;
      }
      if t == |text| {
        break;
      }
      t := t + 1;
    }
    r := false;
  }

  method Matchhere(re: string, text: string) returns (r: bool)
    ensures r <==> HereSpec(re, text)
    decreases |re|, 0
  {
    if re == "" {
      HereEmpty(text);
      return true;
    }
    if |re| > 1 && re[1] == '*' {
      HereMany(re, text);
      r := Matchstar(re[0], re[2..], text);
      return;
    }
    if re == "$" {
      HereEnd(text);
      return text == "";
    }
    HereOne(re, text);
    if text != "" && (re[0] == '.' || re[0] == text[0]) {
      r := Matchhere(re[1..], text[1..]);
      return;
    }
    r := false;
  }

  method Matchstar(c: char, re: string, text: string) returns (r: bool)
    ensures r <==> exists k: nat {:trigger Repeats(c, text, k)} :: Repeats(c, text, k) && HereSpec(re, text[k..])
    decreases |re|, 1
  {
    var t := 0;
    while true
      invariant t <= |text| && AllFit(c, text[..t])
      invariant forall k: nat {:trigger text[k..]} :: k < t ==> !HereSpec(re, text[k..])
      decreases |text| - t
    {
      var here := Matchhere(re, text[t..]);
      if here {
        assert Repeats(c, text, t);
        return true;
      }
      if !(t < |text| && (text[t] == c || c == '.')) {
        break;
      }
      assert text[..t + 1] == text[..t] + [text[t]];
      t := t + 1;
    }
    forall k: nat | Repeats(c, text, k)
      ensures !HereSpec(re, text[k..])
    {
      StarStops(c, text, t, k);
    }
    r := false;
  }

  /** x* takes nothing beyond the first character that does not fit. */
  lemma StarStops(c: char, text: string, t: nat, k: nat)
    requires t <= |text| && (t < |text| ==> !Fits(c, text[t])) && Repeats(c, text, k)
    ensures k <= t
  {
    if t < k { FitsAt(c, text, t, k); }
  }

  lemma FitsAt(c: char, text: string, t: nat, k: nat)
    requires t < k && Repeats(c, text, k)
    ensures Fits(c, text[t])
  {
    assert text[..k][t] == text[t];
  }

  // ----- the loop over the input -----

  const BUFSIZE: nat := 1024

  /** The matching lines of a text, each with its newline, up to the first line that the buffer
      does not hold or that has a NUL in it. */
  ghost function Printed(re: string, s: string): string
    decreases |s|
  {
    var i := Newline(s);
    if i >= |s| || i + 1 > BUFSIZE - 1 || '\0' in s[..i] then ""
    else (if MatchSpec(re, s[..i]) then s[..i + 1] else "") + Printed(re, s[i + 1..])
  }

  /** All matching lines, whatever their length and contents. */
  ghost function Matching(re: string, s: string): string
    decreases |s|
  {
    var i := Newline(s);
    if i >= |s| then "" else (if MatchSpec(re, s[..i]) then s[..i + 1] else "") + Matching(re, s[i + 1..])
  }

  /** No line with its newline is longer than the buffer can hold, and none has a NUL. */
  predicate LinesFit(s: string)
    decreases |s|
  {
    var i := Newline(s);
    i >= |s| || (i + 1 <= BUFSIZE - 1 && '\0' !in s[..i] && LinesFit(s[i + 1..]))
  }

  lemma {:induction false} PrintsWhatFits(re: string, s: string)
    requires LinesFit(s)
    ensures Printed(re, s) == Matching(re, s)
    decreases |s|
  {
    hide MatchSpec;
    var i := Newline(s);
    if i < |s| { PrintsWhatFits(re, s[i + 1..]); }
  }

  lemma {:induction false} PrintsLess(s: string)
    requires !LinesFit(s)
    ensures |Printed("", s)| < |Matching("", s)|
    decreases |s|
  {
    var i := Newline(s);
    EmptyMatches(s[..i]);
    if i + 1 <= BUFSIZE - 1 && '\0' !in s[..i] {
      PrintsLess(s[i + 1..]);
    }
  }

  lemma EmptyMatches(text: string)
    ensures MatchSpec("", text)
  {
    HereEmpty(text[0..]);
  }

  /** For which inputs grep is right whatever the pattern: a longer line, or one with a NUL,
      makes it stop. */
  lemma RightExactlyWhenLinesFit(s: string)
    ensures (forall re: string :: Printed(re, s) == Matching(re, s)) <==> LinesFit(s)
  {
    if LinesFit(s) {
      forall re: string
        ensures Printed(re, s) == Matching(re, s)
      {
        PrintsWhatFits(re, s);
      }
    } else {
      PrintsLess(s);
      assert Printed("", s) != Matching("", s);
    }
  }

  /** Where the first newline is, or the length. */
  function Newline(s: string): (i: nat)
    ensures i <= |s| && (forall j :: 0 <= j < i ==> s[j] != '\n') && (i < |s| ==> s[i] == '\n')
  {
    if s == "" || s[0] == '\n' then 0 else 1 + Newline(s[1..])
  }

  lemma NewlineIs(s: string, i: nat)
    requires i <= |s| && (forall j :: 0 <= j < i ==> s[j] != '\n') && (i < |s| ==> s[i] == '\n')
    ensures Newline(s) == i
  {
  }

  /** As a C string, the text has no complete line: a NUL comes before its first newline. */
  predicate NoLine(s: string) { Newline(s) < |s| ==> '\0' in s[..Newline(s)] }

  /** grep on a file that holds `input`, whatever the sizes of the pieces read() hands out. */
  method Grep(pattern: string, input: string, buf: array<char>) returns (out: string)
    requires buf.Length == BUFSIZE
    modifies buf
    ensures out == Printed(pattern, input)
  {
    hide Printed, NoLine;
    var m: nat, pos: nat := 0, 0;
    out := "";
    assert NoLine(buf[..0]) by { NoLineInNothing(); }
    assert buf[..0] + input[0..] == input;
    while true
      invariant m <= BUFSIZE - 1 && pos <= |input| && NoLine(buf[..m])
      invariant out + Printed(pattern, buf[..m] + input[pos..]) == Printed(pattern, input)
      decreases |input| - pos
    {
      ghost var part := buf[..m];
      var n := Read(buf, m, BUFSIZE - m - 1, input, pos);
      if n == 0 {
        NothingPrinted(pattern, part, input[pos..], m);
        break;
      }
      Refill(part, input, pos, n, buf[..m + n]);
      m := m + n;
      pos := pos + n;
      ghost var filled := buf[..m];
      buf[m] := '\0';
      assert buf[..m] == filled;
      var p;
      out, p := PrintLines(pattern, buf, m, out, input[pos..]);
      Shift(buf, p, m);
      m := m - p;
    }
  }

  lemma NoLineInNothing()
    ensures NoLine([])
  {
  }

  lemma Refill(part: string, input: string, pos: nat, n: nat, filled: string)
    requires pos + n <= |input| && filled == part + input[pos..pos + n]
    ensures filled + input[pos + n..] == part + input[pos..]
  {
    assert input[pos..] == input[pos..pos + n] + input[pos + n..];
    assert filled + input[pos + n..] == part + (input[pos..pos + n] + input[pos + n..]);
  }

  /** strchr(buf + p, c): the string ends at the first NUL, at buf[m] at the latest. */
  method Strchr(buf: array<char>, p: nat, m: nat, c: char) returns (found: bool, q: nat)
    requires p <= m < buf.Length && buf[m] == '\0' && c != '\0'
    ensures p <= q <= m && c !in buf[p..q] && '\0' !in buf[p..q]
    ensures if found then q < m && buf[q] == c else buf[q] == '\0'
  {
    q := p;
    while buf[q] != c && buf[q] != '\0'
      invariant p <= q <= m && c !in buf[p..q] && '\0' !in buf[p..q]
      decreases m - q
    {
      q := q + 1;
    }
    found := buf[q] == c;
  }

  /** The next complete line of the buffer is printed if it matches. */
  method PrintNext(pattern: string, buf: array<char>, p: nat, m: nat) returns (found: bool, p': nat, line: string)
    requires p <= m < buf.Length == BUFSIZE && buf[m] == '\0'
    modifies buf
    ensures buf[m] == '\0' && p <= p' <= m && buf[p'..m] == old(buf[p'..m])
    ensures found ==> p < p' && Prints(pattern, old(buf[p..m]), p' - p, line)
    ensures !found ==> p' == p && line == "" && NoLine(old(buf[p..m]))
  {
    hide MatchSpec;
    var q;
    found, q := Strchr(buf, p, m, '\n');
    p', line := p, "";
    ghost var tail := buf[p..m];
    if found {
      line := PrintLine(pattern, buf, p, q);
      p' := q + 1;
      assert tail[..q - p] == old(buf[p..q]) && tail[q - p] == '\n';
    } else {
      Unfinished(tail, q - p, old(buf[p..q]));
    }
  }

  /** The first `k` characters are a line with its newline, and `line` is printed for it. */
  ghost predicate Prints(re: string, tail: string, k: nat, line: string) {
    && 0 < k <= |tail| && tail[k - 1] == '\n' && '\n' !in tail[..k - 1] && '\0' !in tail[..k - 1]
    && line == if MatchSpec(re, tail[..k - 1]) then tail[..k - 1] + ['\n'] else ""
  }

  lemma Unfinished(tail: string, k: nat, front: string)
    requires k <= |tail| && front == tail[..k] && '\n' !in front && (k < |tail| ==> tail[k] == '\0')
    ensures NoLine(tail)
  {
    var i := Newline(tail);
    forall j | 0 <= j < k
      ensures tail[j] != '\n'
    {
      assert front[j] == tail[j];
    }
    if k < i < |tail| { assert tail[..i][k] == '\0'; }
  }

  /** Prints the complete lines of the buffer that match; `p` is where the last, incomplete one
      starts. */
  method PrintLines(pattern: string, buf: array<char>, m: nat, out0: string, ghost rest: string)
    returns (out: string, p: nat)
    requires m < buf.Length == BUFSIZE && buf[m] == '\0'
    modifies buf
    ensures p <= m && buf[p..m] == old(buf[p..m]) && NoLine(buf[p..m])
    ensures out + Printed(pattern, buf[p..m] + rest) == out0 + Printed(pattern, old(buf[..m]) + rest)
  {
    hide Printed, MatchSpec, Prints, NoLine;
    p, out := 0, out0;
    assert buf[0..m] == buf[..m];
    var more := true;
    while more
      invariant p <= m && buf[p..m] == old(buf[p..m]) && buf[m] == '\0'
      invariant out + Printed(pattern, buf[p..m] + rest) == out0 + Printed(pattern, old(buf[..m]) + rest)
      invariant !more ==> NoLine(buf[p..m])
      decreases m - p, more
    {
      ghost var tail, p0 := buf[p..m], p;
      var line;
      more, p, line := PrintNext(pattern, buf, p, m);
      assert buf[p..m] == tail[p - p0..];
      if more {
        OneLine(pattern, tail, p - p0, rest, line);
      }
      out := out + line;
    }
  }

  /** The line at buf[p..q], with its newline, is printed if it matches; for match the newline is
      overwritten by a NUL, and it is put back only for a line that is printed. */
  method PrintLine(pattern: string, buf: array<char>, p: nat, q: nat) returns (line: string)
    requires p <= q < buf.Length && buf[q] == '\n'
    modifies buf
    ensures line == if MatchSpec(pattern, old(buf[p..q])) then old(buf[p..q]) + ['\n'] else ""
    ensures forall j :: 0 <= j < buf.Length && j != q ==> buf[j] == old(buf[j])
  {
    hide MatchSpec;
    ghost var text := buf[p..q];
    buf[q] := '\0';
    assert buf[p..q] == text;
    var matched := Match(pattern, buf[p..q]);
    line := "";
    if matched {
      buf[q] := '\n';
      assert buf[p..q] == text;
      line := buf[p..q + 1];
    }
  }

  /** A complete line in the buffer is printed if it matches. */
  lemma OneLine(re: string, tail: string, k: nat, rest: string, line: string)
    requires |tail| < BUFSIZE && Prints(re, tail, k, line)
    ensures k <= |tail| && Printed(re, tail + rest) == line + Printed(re, tail[k..] + rest)
  {
    hide MatchSpec;
    var s, i := tail + rest, k - 1;
    forall j | 0 <= j < i
      ensures s[j] != '\n'
    {
      assert tail[..i][j] == s[j];
    }
    NewlineIs(s, i);
    assert s[..i] == tail[..i] && s[i + 1..] == tail[k..] + rest;
    assert s[..i + 1] == tail[..i] + ['\n'];
  }

  /** memmove(buf, p, m) of what is left of the buffer. */
  method Shift(buf: array<char>, p: nat, m: nat)
    requires p <= m <= buf.Length
    modifies buf
    ensures buf[..m - p] == old(buf[p..m])
  {
    var i := 0;
    while i < m - p
      invariant 0 <= i <= m - p && forall j :: 0 <= j < i ==> buf[j] == old(buf[p + j])
      invariant forall j :: p + i <= j < m ==> buf[j] == old(buf[j])
    {
      buf[i] := buf[p + i];
      i := i + 1;
    }
  }

  /** read(fd, buf + m, space): some of what is left of the file, nothing only at its end or
      when no space is left. */
  method Read(buf: array<char>, m: nat, space: nat, input: string, pos: nat) returns (n: nat)
    requires m + space <= buf.Length && pos <= |input|
    modifies buf
    ensures n <= space && pos + n <= |input| && (n == 0 <==> space == 0 || pos == |input|)
    ensures buf[..m + n] == old(buf[..m]) + input[pos..pos + n]
  {
    if space == 0 || pos == |input| {
      return 0;
    }
    n :| 1 <= n <= space && pos + n <= |input|;
    var i := 0;
    while i < n
      invariant i <= n && buf[..m + i] == old(buf[..m]) + input[pos..pos + i]
    {
      buf[m + i] := input[pos + i];
      i := i + 1;
      assert input[pos..pos + i] == input[pos..pos + i - 1] + [input[pos + i - 1]];
    }
  }

  lemma NothingPrinted(re: string, part: string, rest: string, m: nat)
    requires |part| == m && NoLine(part) && (m == BUFSIZE - 1 || rest == "")
    ensures Printed(re, part + rest) == ""
  {
    var s, i := part + rest, Newline(part);
    forall j | 0 <= j < i
      ensures s[j] != '\n'
    {
      assert s[j] == part[j];
    }
    if i < m {
      NewlineIs(s, i);
      assert s[..i] == part[..i];
    }
  }
}
