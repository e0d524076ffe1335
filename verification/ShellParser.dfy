/**
 The parser of sh.c: recursive descent over a line, then NULs written into the line after each word.
 Positions stand for the pointers; the source's panics are failures here.
 */
module ShellParser {
  import opened ShellGrammar
  import opened ShellSpec
  import ShellOrder

  // gettoken and peek: sh.c:362-417

  method SkipSpaces(line: string, p: nat) returns (s: nat)
    requires p <= |line|
    ensures s == Skip(line, p)
  {
    s := p;
    while s < |line| && IsSpace(line[s])
      invariant p <= s <= |line| && Skip(line, s) == Skip(line, p)
    {
      s := s + 1;
    }
  }

  /** The next token: its kind, where it starts and ends, and where the next one starts. */
  method GetToken(line: string, p: nat) returns (kind: char, q: nat, eq: nat, next: nat)
    requires p <= |line|
    ensures q == Skip(line, p) && kind == Kind(line, q) && eq == TokenEnd(line, q) && next == Skip(line, eq)
    ensures kind == NUL <==> q == |line|
    ensures q < |line| ==>
      Token(line, p, kind, next) && p < next <= |line| && (kind == 'a' ==> Word(line, p, Span(q, eq), next))
  {
    q := SkipSpaces(line, p);
    var s := q;
    if s == |line| {
      kind := NUL;
    } else if line[s] == '|' || line[s] == '(' || line[s] == ')' || line[s] == ';' || line[s] == '&' || line[s] == '<' {
      kind := line[s];
      s := s + 1;
    } else if line[s] == '>' {
      kind := '>';
      s := s + 1;
      if s < |line| && line[s] == '>' {
        kind := '+';
        s := s + 1;
      }
    } else {
      kind := 'a';
      while s < |line| && !IsSpace(line[s]) && !IsSymbol(line[s])
        invariant q <= s <= |line| && WordEnd(line, s) == WordEnd(line, q)
      {
        s := s + 1;
      }
    }
    eq := s;
    next := SkipSpaces(line, s);
    if q < |line| {
      TokenMoves(line, p, kind, next);
    }
  }

  method Peek(line: string, p: nat, toks: string) returns (b: bool, next: nat)
    requires p <= |line|
    ensures next == Skip(line, p) && (b <==> next < |line| && line[next] in toks)
  {
    next := SkipSpaces(line, p);
    b := next < |line| && line[next] in toks;
  }

  // parseredirs: sh.c:471-494

  /** More redirections of a command that reaches to `p`. */
  method ParseRedirs(line: string, cmd: Cmd, p: nat, ghost from: nat, ghost block: bool)
      returns (c: Cmd, q: nat, ok: bool)
    requires from <= p <= |line| && Skip(line, p) == p
    requires if block then IsBlock(line, cmd, from, p) else IsSimple(line, cmd, from, p)
    ensures p <= q <= |line| && Skip(line, q) == q
    ensures ok ==> if block then IsBlock(line, c, from, q) else IsSimple(line, c, from, q)
    ensures Args(c) == Args(cmd) && (ArgsFit(c) <==> ArgsFit(cmd))
    ensures Is(Redirs(line, cmd, p), c, q, ok)
    ensures if ok then Simple(line, cmd, p) == Simple(line, c, q) && !Next(line, q, "<>")
      else Simple(line, cmd, p) == Fail
  {
    hide Redirs, Simple, IsSimple, IsBlock, ArgsFit, Args, Kind, TokenEnd;
    c, q, ok := cmd, p, true;
    while true
      invariant p <= q <= |line| && Skip(line, q) == q && ok
      invariant if block then IsBlock(line, c, from, q) else IsSimple(line, c, from, q)
      invariant Args(c) == Args(cmd) && (ArgsFit(c) <==> ArgsFit(cmd))
      invariant Redirs(line, cmd, p) == Redirs(line, c, q) && Simple(line, cmd, p) == Simple(line, c, q)
      decreases |line| - q
    {
      var more;
      more, q := Peek(line, q, "<>");
      RedirSteps(line, c, q);
      if !more {
        break;
      }
      var tok, _, _, m := GetToken(line, q);
      var kind, lo, hi, next := GetToken(line, m);
      if kind != 'a' {
        return c, q, false;
      }
      var mode, fd := if tok == '<' then ReadOnly else WriteCreate, if tok == '<' then 0 else 1;
      OneRedir(line, c, from, q, m, Span(lo, hi), next, block);
      c := Redir(c, Span(lo, hi), mode, fd);
      q := next;
      Skipped(line, hi);
    }
  }

  lemma OneRedir(line: string, c: Cmd, from: nat, q: nat, m: nat, w: Span, next: nat, block: bool)
    requires from <= q <= |line| && (if block then IsBlock(line, c, from, q) else IsSimple(line, c, from, q))
    requires Next(line, q, "<>") && m == After(line, q) && Word(line, m, w, next) && q == Skip(line, q)
    ensures var d := Redirected(line, c, q);
      && q < next <= |line| && d == Redir(c, w, d.mode, d.fd)
      && d.mode == (if Kind(line, q) == '<' then ReadOnly else WriteCreate)
         && d.fd == (if Kind(line, q) == '<' then 0 else 1)
      && (if block then IsBlock(line, d, from, next) else IsSimple(line, d, from, next))
      && Args(d) == Args(c) && (ArgsFit(d) <==> ArgsFit(c))
  {
    var d := Redirected(line, c, q);
    var kind := Kind(line, q);
    assert Token(line, q, kind, m);
    TokenMoves(line, q, kind, m);
    TokenMoves(line, m, 'a', next);
    assert RedirKind(kind, d.mode, d.fd);
    assert Redirection(line, q, w, d.mode, d.fd, next);
  }

  // The recursive descent: sh.c:441-469, 496-543

  lemma SimpleArgsFit(line: string, c: Cmd, p: nat, q: nat)
    requires p <= q <= |line| && IsSimple(line, c, p, q) && Args(c) < MAXARGS
    ensures ArgsFit(c)
  {
    SimpleYields(line, c, p, q);
    FitArgs(c);
  }

  /** The result of a parsing function. */
  ghost predicate Is(r: Parsed, c: Cmd, q: nat, ok: bool) {
    r == if ok then Ok(c, q) else Fail
  }

  ghost predicate IsExec(line: string, c: Cmd, p: nat, q: nat)
    requires p <= q <= |line|
  {
    IsSimple(line, c, p, q) || IsBlock(line, c, p, q)
  }

  method ParseLine(line: string, p: nat) returns (c: Cmd, q: nat, ok: bool)
    requires p <= |line|
    ensures p <= q <= |line| && Skip(line, q) == q
    ensures ok ==> IsLine(line, c, p, q) && ArgsFit(c)
    ensures Is(Line(line, p), c, q, ok)
    decreases |line| - p, 4
  {
    hide IsPipe, Token;
    c, q, ok := ParsePipe(line, p);
    if !ok {
      return;
    }
    while true
      invariant p <= q <= |line| && Skip(line, q) == q && IsBacks(line, c, p, q) && ArgsFit(c) && ok
      invariant Line(line, p) == Tail(line, c, q)
      decreases |line| - q
    {
      var more;
      more, q := Peek(line, q, "&");
      if !more {
        break;
      }
      var _, _, e, next := GetToken(line, q);
      Skipped(line, e);
      SymbolKind(line, q);
      c, q := Back(c), next;
    }
    var more;
    more, q := Peek(line, q, ";");
    if more {
      var _, _, _, n := GetToken(line, q);
      SymbolKind(line, q);
      ghost var m := q;
      var r;
      r, q, ok := ParseLine(line, n);
      c := List(c, r);
    }
  }

  method ParsePipe(line: string, p: nat) returns (c: Cmd, q: nat, ok: bool)
    requires p <= |line|
    ensures p <= q <= |line| && Skip(line, q) == q
    ensures ok ==> IsPipe(line, c, p, q) && ArgsFit(c)
    ensures Is(Pipeline(line, p), c, q, ok)
    decreases |line| - p, 3
  {
    hide IsSimple, IsBlock, Token;
    c, q, ok := ParseExec(line, p);
    if !ok {
      return;
    }
    var more;
    more, q := Peek(line, q, "|");
    if more {
      var _, _, _, n := GetToken(line, q);
      SymbolKind(line, q);
      ghost var m := q;
      var r;
      r, q, ok := ParsePipe(line, n);
      c := Pipe(c, r);
    }
  }

  method ParseBlock(line: string, p: nat) returns (c: Cmd, q: nat, ok: bool)
    requires p <= |line|
    ensures p <= q <= |line| && Skip(line, q) == q
    ensures ok ==> IsBlock(line, c, p, q) && ArgsFit(c)
    ensures if Next(line, p, "(") then Is(Block(line, p), c, q, ok) else !ok
    decreases |line| - p, 1
  {
    hide IsLine, Token;
    Skipped(line, p);
    c := Exec([]);
    var more;
    more, q := Peek(line, p, "(");
    if !more {
      return c, q, false;
    }
    var _, _, _, m := GetToken(line, q);
    SymbolKind(line, q);
    TokenSkip(line, p, '(', m);
    c, q, ok := ParseLine(line, m);
    if !ok {
      return;
    }
    more, q := Peek(line, q, ")");
    if !more {
      return c, q, false;
    }
    var _, _, e, next := GetToken(line, q);
    SymbolKind(line, q);
    Skipped(line, e);
    assert IsBlock(line, c, p, next);
    c, q, ok := ParseRedirs(line, c, next, p, true);
  }

  lemma SymbolKind(line: string, s: nat)
    requires s < |line| && IsSymbol(line[s]) && line[s] != '>'
    ensures Kind(line, s) == line[s]
  {}

  lemma TokenSkip(line: string, p: nat, kind: char, q: nat)
    requires p <= |line| && Token(line, Skip(line, p), kind, q)
    ensures Token(line, p, kind, q)
  {
    Skipped(line, p);
  }

  lemma NoArgs(line: string, p: nat)
    requires p <= |line|
    ensures IsSimple(line, Exec([]), p, Skip(line, p))
  {}

  lemma AnotherArg(line: string, c: Cmd, p: nat, m: nat, w: Span, q: nat)
    requires p <= m < q <= |line| && IsSimple(line, c, p, m) && Word(line, m, w, q)
    ensures IsSimple(line, AddArg(c, w), p, q) && Args(AddArg(c, w)) == Args(c) + 1
  {
    SimpleYields(line, c, p, m);
    OneMoreArg(c, w);
  }

  method ParseExec(line: string, p: nat) returns (c: Cmd, q: nat, ok: bool)
    requires p <= |line|
    ensures p <= q <= |line| && Skip(line, q) == q
    ensures ok ==> IsExec(line, c, p, q) && ArgsFit(c) && ShellOrder.InOrder(line, c)
    ensures Is(Command(line, p), c, q, ok)
    decreases |line| - p, 2
  {
    hide IsBlock, Token, Word, IsSimple;
    Skipped(line, p);
    NoArgs(line, p);
    var block;
    block, q := Peek(line, p, "(");
    if block {
      c, q, ok := ParseBlock(line, p);
      if ok {
        ShellOrder.ExecOrder(line, c, p, q);
      }
      return;
    }
    var argc := 0;
    c, q, ok := ParseRedirs(line, Exec([]), q, p, false);
    if !ok {
      return;
    }
    while true
      invariant p <= q <= |line| && Skip(line, q) == q && ok
      invariant IsSimple(line, c, p, q) && Args(c) == argc < MAXARGS
      invariant Command(line, p) == Simple(line, c, q) && !Next(line, q, "<>")
      decreases |line| - q
    {
      var stop;
      stop, q := Peek(line, q, "|)&;");
      if stop {
        break;
      }
      var tok, lo, hi, next := GetToken(line, q);
      SimpleSteps(line, c, q);
      if tok == NUL {
        break;
      }
      if tok != 'a' {
        return c, q, false;
      }
      AnotherArg(line, c, p, q, Span(lo, hi), next);
      Skipped(line, hi);
      c, q, argc := AddArg(c, Span(lo, hi)), next, argc + 1;
      if argc >= MAXARGS {
        return c, q, false;
      }
      c, q, ok := ParseRedirs(line, c, q, p, false);
      if !ok {
        return;
      }
    }
    SimpleArgsFit(line, c, p, q);
    SimpleSteps(line, c, q);
    ShellOrder.ExecOrder(line, c, p, q);
  }

  // nulterminate: sh.c:546-590

  /** The string that starts a buffer. */
  ghost function CString(b: seq<char>): (s: string)
    requires NUL in b
    ensures |s| < |b| && s == b[..|s|] && b[|s|] == NUL && NUL !in s
  {
    if b[0] == NUL then "" else [b[0]] + CString(b[1..])
  }

  lemma {:induction false} CStringIs(b: seq<char>, n: nat)
    requires n < |b| && b[n] == NUL && NUL !in b[..n]
    ensures CString(b) == b[..n]
    decreases n
  {
    if n > 0 {
      assert b[0] == b[..n][0];
      assert b[1..][..n - 1] == b[..n][1..];
      CStringIs(b[1..], n - 1);
    }
  }

  ghost predicate EndsIn(ss: seq<Span>, n: nat) {
    forall k :: 0 <= k < |ss| ==> ss[k].hi < n
  }

  /** A NUL at the end of each span. */
  ghost function WriteNuls(b: seq<char>, ss: seq<Span>): (r: seq<char>)
    requires EndsIn(ss, |b|)
    ensures |r| == |b|
    decreases |ss|
  {
    if ss == [] then b else WriteNuls(b[ss[0].hi := NUL], ss[1..])
  }

  lemma {:induction false} WriteNulsJoin(b: seq<char>, s: seq<Span>, t: seq<Span>)
    requires EndsIn(s, |b|) && EndsIn(t, |b|)
    ensures EndsIn(s + t, |b|) && WriteNuls(b, s + t) == WriteNuls(WriteNuls(b, s), t)
    decreases |s|
  {
    if s == [] {
      assert s + t == t;
    } else {
      WriteNulsJoin(b[s[0].hi := NUL], s[1..], t);
      assert (s + t)[1..] == s[1..] + t;
    }
  }

  ghost predicate EndOfOne(ss: seq<Span>, i: nat) {
    exists k :: 0 <= k < |ss| && ss[k].hi == i
  }

  lemma {:induction false} WriteNulsAt(b: seq<char>, ss: seq<Span>, i: nat)
    requires EndsIn(ss, |b|) && i < |b|
    ensures WriteNuls(b, ss)[i] == if EndOfOne(ss, i) then NUL else b[i]
    decreases |ss|
  {
    if ss != [] {
      var rest := ss[1..];
      WriteNulsAt(b[ss[0].hi := NUL], rest, i);
      if EndOfOne(rest, i) {
        var k :| 0 <= k < |rest| && rest[k].hi == i;
        assert ss[k + 1].hi == i;
      }
      if EndOfOne(ss, i) && ss[0].hi != i {
        var k :| 0 <= k < |ss| && ss[k].hi == i;
        assert rest[k - 1].hi == i;
      }
    }
  }

  lemma SpansParts(c: Cmd, n: nat)
    requires EndsIn(Spans(c), n)
    ensures c.Redir? ==> EndsIn(Spans(c.cmd), n) && c.file.hi < n
    ensures c.Pipe? || c.List? ==> EndsIn(Spans(c.left), n) && EndsIn(Spans(c.right), n)
  {
    if c.Redir? {
      var s, t := Spans(c.cmd), [c.file];
      assert forall k :: 0 <= k < |s| ==> (s + t)[k] == s[k];
      assert (s + t)[|s|] == c.file;
    } else if c.Pipe? || c.List? {
      var s, t := Spans(c.left), Spans(c.right);
      assert forall k :: 0 <= k < |s| ==> (s + t)[k] == s[k];
      assert forall k :: 0 <= k < |t| ==> (s + t)[|s| + k] == t[k];
    }
  }

  method NulTerminate(buf: array<char>, c: Cmd)
    requires EndsIn(Spans(c), buf.Length)
    modifies buf
    ensures buf[..] == WriteNuls(old(buf[..]), Spans(c))
    decreases c
  {
    hide WriteNuls;
    SpansParts(c, buf.Length);
    ghost var b := buf[..];
    match c {
      case Exec(args) =>
        NoNuls(b);
        var i := 0;
        while i < |args|
          invariant 0 <= i <= |args| && EndsIn(args[..i], |b|) && buf[..] == WriteNuls(b, args[..i])
        {
          buf[args[i].hi] := NUL;
          OneNul(WriteNuls(b, args[..i]), args[i]);
          WriteNulsJoin(b, args[..i], [args[i]]);
          assert args[..i] + [args[i]] == args[..i + 1];
          i := i + 1;
        }
        assert args[..|args|] == args;
      case Redir(d, file, _, _) =>
        NulTerminate(buf, d);
        OneNul(buf[..], file);
        WriteNulsJoin(b, Spans(d), [file]);
        buf[file.hi] := NUL;
      case Pipe(l, r) =>
        NulTerminate(buf, l);
        WriteNulsJoin(b, Spans(l), Spans(r));
        NulTerminate(buf, r);
      case List(l, r) =>
        NulTerminate(buf, l);
        WriteNulsJoin(b, Spans(l), Spans(r));
        NulTerminate(buf, r);
      case Back(d) =>
        NulTerminate(buf, d);
    }
  }

  lemma NoNuls(b: seq<char>)
    ensures EndsIn([], |b|) && WriteNuls(b, []) == b
  {}

  lemma OneNul(b: seq<char>, w: Span)
    requires w.hi < |b|
    ensures EndsIn([w], |b|) && WriteNuls(b, [w]) == b[w.hi := NUL]
  {
    assert [w][1..] == [];
  }

  /** Every NUL falls outside of all words, so each of them ends up as a string of its own. */
  lemma WordStrings(line: string, c: Cmd, b: seq<char>, k: nat)
    requires |line| < |b| && line == b[..|line|] && b[|line|] == NUL && NUL !in line
    requires IsLine(line, c, 0, |line|) && k < |Spans(c)|
    ensures EndsIn(Spans(c), |b|)
    ensures var w := Spans(c)[k];
      && w.lo < w.hi <= |line|
      && NUL in WriteNuls(b, Spans(c))[w.lo..]
      && CString(WriteNuls(b, Spans(c))[w.lo..]) == line[w.lo..w.hi]
  {
    hide IsLine, WriteNuls, CString;
    SpansAreWords(line, c);
    var ss := Spans(c);
    assert WordSpan(line, ss[k]);
    var w, r := ss[k], WriteNuls(b, ss);
    forall i | w.lo <= i < w.hi ensures r[i] == line[i] {
      WriteNulsAt(b, ss, i);
      NotAnEnd(line, ss, i);
    }
    WriteNulsAt(b, ss, w.hi);
    assert EndOfOne(ss, w.hi);
    var t, n := r[w.lo..], w.hi - w.lo;
    assert t[n] == NUL;
    assert t[..n] == line[w.lo..w.hi];
    forall i | 0 <= i < n ensures t[..n][i] != NUL {
      assert line[w.lo + i] in line;
    }
    CStringIs(t, n);
  }

  lemma NotAnEnd(line: string, ss: seq<Span>, i: nat)
    requires (forall k :: 0 <= k < |ss| ==> WordSpan(line, ss[k])) && i < |line| && IsWord(line[i])
    ensures !EndOfOne(ss, i)
  {
    forall k | 0 <= k < |ss| ensures ss[k].hi != i {
      assert WordSpan(line, ss[k]);
    }
  }

  lemma SpansAreWords(line: string, c: Cmd)
    requires IsLine(line, c, 0, |line|)
    ensures forall k :: 0 <= k < |Spans(c)| ==> WordSpan(line, Spans(c)[k])
    ensures EndsIn(Spans(c), |line| + 1)
  {
    LineYields(line, c, 0, |line|);
    var ss, ws := Spans(c), Words(line, 0, |line|);
    forall k | 0 <= k < |ss| ensures WordSpan(line, ss[k]) {
      assert ss[k] in multiset(ss);
      assert ss[k] in multiset(ws);
      var l :| 0 <= l < |ws| && ws[l] == ss[k];
      WordsGood(line, 0, |line|, l);
    }
  }

  /** No word is used twice, and different words do not touch. */
  lemma SpansDisjoint(line: string, c: Cmd, k: nat, l: nat)
    requires IsLine(line, c, 0, |line|) && k < l < |Spans(c)|
    ensures Spans(c)[k].hi < Spans(c)[l].lo || Spans(c)[l].hi < Spans(c)[k].lo
  {
    LineYields(line, c, 0, |line|);
    var ss, ws := Spans(c), Words(line, 0, |line|);
    hide IsLine, Words;
    assert ss[k] in multiset(ss) && ss[l] in multiset(ss);
    assert ss[k] in multiset(ws) && ss[l] in multiset(ws);
    if ss[k] == ss[l] {
      Twice(ss, k, l);
      var i, j := TwiceIn(ws, ss[k]);
      WordsOrdered(line, 0, |line|, i, j);
      WordsGood(line, 0, |line|, i);
    } else {
      var i :| 0 <= i < |ws| && ws[i] == ss[k];
      var j :| 0 <= j < |ws| && ws[j] == ss[l];
      if i < j {
        WordsOrdered(line, 0, |line|, i, j);
      } else {
        WordsOrdered(line, 0, |line|, j, i);
      }
    }
  }

  lemma Twice(s: seq<Span>, k: nat, l: nat)
    requires k < l < |s| && s[k] == s[l]
    ensures multiset(s)[s[k]] >= 2
  {
    assert s == s[..l] + s[l..];
    assert s[k] in s[..l] && s[l] in s[l..];
    assert multiset(s) == multiset(s[..l]) + multiset(s[l..]);
  }

  lemma {:induction false} TwiceIn(s: seq<Span>, x: Span) returns (i: nat, j: nat)
    requires multiset(s)[x] >= 2
    ensures i < j < |s| && s[i] == s[j] == x
  {
    var n := |s| - 1;
    assert s == s[..n] + [s[n]];
    if s[n] != x || multiset(s[..n])[x] >= 2 {
      i, j := TwiceIn(s[..n], x);
    } else {
      assert x in multiset(s[..n]);
      i :| 0 <= i < n && s[..n][i] == x;
      j := n;
    }
  }

  /** The line is a command of the language without too many arguments. */
  ghost predicate InLanguage(line: string) {
    exists c: Cmd :: IsLine(line, c, 0, |line|) && ArgsFit(c)
  }

  /** The parser gets to the end of every such line. */
  lemma OnlyIf(line: string, c: Cmd, q: nat, ok: bool)
    requires Is(Line(line, 0), c, q, ok)
    ensures InLanguage(line) ==> ok && q == |line|
  {
    if InLanguage(line) {
      var d: Cmd :| IsLine(line, d, 0, |line|) && ArgsFit(d);
      assert Ends(line, |line|, ")");
      LineReaches(line, d, 0, |line|);
    }
  }

  method StrLen(buf: array<char>) returns (n: nat)
    requires NUL in buf[..]
    ensures n < buf.Length && buf[..n] == CString(buf[..])
  {
    ghost var s := CString(buf[..]);
    n := 0;
    while buf[n] != NUL
      invariant n <= |s|
      decreases |s| - n
    {
      n := n + 1;
    }
    assert n == |s|;
  }

  /**
   parsecmd: exactly the lines of the language are accepted, and after such a line has been cut up every
   argument and file name is the word it was in the line. A line that is not accepted stays as it is.
   */
  method ParseCmd(buf: array<char>) returns (c: Cmd, ok: bool)
    requires NUL in buf[..]
    modifies buf
    ensures ok <==> InLanguage(CString(old(buf[..])))
    ensures !ok ==> buf[..] == old(buf[..])
    ensures ok ==>
      var line := CString(old(buf[..]));
      && IsLine(line, c, 0, |line|) && ArgsFit(c) && ShellOrder.InOrder(line, c)
      && forall k :: 0 <= k < |Spans(c)| ==> WordIs(buf[..], line, Spans(c)[k])
  {
    ghost var b := buf[..];
    var n := StrLen(buf);
    var line := buf[..n];
    var q;
    c, q, ok := ParseLine(line, 0);
    OnlyIf(line, c, q, ok);
    if !ok {
      return;
    }
    var _, s := Peek(line, q, "");
    if s != n {
      return c, false;
    }
    assert NUL !in line;
    SpansAreWords(line, c);
    ShellOrder.LineOrder(line, c, 0, n);
    NulTerminate(buf, c);
    forall k | 0 <= k < |Spans(c)| ensures WordIs(buf[..], line, Spans(c)[k]) {
      WordStrings(line, c, b, k);
    }
  }

  /** The string at the start of the span is the word of the line. */
  ghost predicate WordIs(b: seq<char>, line: string, w: Span) {
    w.lo < w.hi <= |line| < |b| && NUL in b[w.lo..] && CString(b[w.lo..]) == line[w.lo..w.hi]
  }
}
