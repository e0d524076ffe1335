/**
 The command language of sh.c: its tokens, the commands, and which stretch of a line is which command.
 */
module ShellGrammar {
  // Tokens

  predicate IsSpace(c: char) {
    c == ' ' || c == '\t' || c == '\r' || c == '\n' || c == '\U{000B}'
  }

  predicate IsSymbol(c: char) {
    c == '<' || c == '|' || c == '>' || c == '&' || c == ';' || c == '(' || c == ')'
  }

  predicate IsWord(c: char) {
    !IsSpace(c) && !IsSymbol(c)
  }

  const NUL := '\0'

  function Skip(line: string, p: nat): (q: nat)
    requires p <= |line|
    ensures p <= q <= |line| && (q < |line| ==> !IsSpace(line[q]))
    decreases |line| - p
  {
    if p < |line| && IsSpace(line[p]) then Skip(line, p + 1) else p
  }

  lemma {:induction false} SkipAt(line: string, p: nat, i: nat)
    requires p <= |line| && p <= i < Skip(line, p)
    ensures IsSpace(line[i])
    decreases |line| - p
  {
    if i > p {
      SkipAt(line, p + 1, i);
    }
  }

  function WordEnd(line: string, p: nat): (q: nat)
    requires p <= |line|
    ensures p <= q <= |line| && (q < |line| ==> !IsWord(line[q]))
    decreases |line| - p
  {
    if p < |line| && IsWord(line[p]) then WordEnd(line, p + 1) else p
  }

  lemma {:induction false} WordAt(line: string, p: nat, i: nat)
    requires p <= |line| && p <= i < WordEnd(line, p)
    ensures IsWord(line[i])
    decreases |line| - p
  {
    if i > p {
      WordAt(line, p + 1, i);
    }
  }

  /** What gettoken says about the token that starts at `s`; '+' is `>>`, 'a' a word. */
  function Kind(line: string, s: nat): char
    requires s <= |line|
  {
    if s == |line| then NUL
    else if line[s] == '>' then (if s + 1 < |line| && line[s + 1] == '>' then '+' else '>')
    else if IsSymbol(line[s]) then line[s]
    else 'a'
  }

  function TokenEnd(line: string, s: nat): (e: nat)
    requires s <= |line|
    ensures s <= e <= |line|
  {
    if s == |line| then s
    else if Kind(line, s) == '+' then s + 2
    else if IsSymbol(line[s]) then s + 1
    else WordEnd(line, s)
  }

  /** Between `p` and `q` there is just a token of this kind and white space. */
  predicate Token(line: string, p: nat, kind: char, q: nat)
    requires p <= |line|
  {
    var s := Skip(line, p);
    s < |line| && Kind(line, s) == kind && q == Skip(line, TokenEnd(line, s))
  }

  lemma TokenMoves(line: string, p: nat, kind: char, q: nat)
    requires p <= |line| && Token(line, p, kind, q)
    ensures p < q <= |line| && q == Skip(line, q)
  {
    Skipped(line, TokenEnd(line, Skip(line, p)));
  }

  lemma {:induction false} Skipped(line: string, p: nat)
    requires p <= |line|
    ensures Skip(line, Skip(line, p)) == Skip(line, p)
    decreases |line| - p
  {
    if p < |line| && IsSpace(line[p]) {
      Skipped(line, p + 1);
    }
  }

  // Commands

  datatype Span = Span(lo: nat, hi: nat)

  datatype Mode = ReadOnly | WriteCreate

  datatype Cmd =
    | Exec(args: seq<Span>)
    | Redir(cmd: Cmd, file: Span, mode: Mode, fd: nat)
    | Pipe(left: Cmd, right: Cmd)
    | List(left: Cmd, right: Cmd)
    | Back(cmd: Cmd)

  /** The word that starts at or after `p`. */
  predicate Word(line: string, p: nat, w: Span, q: nat)
    requires p <= |line|
  {
    Token(line, p, 'a', q) && w == Span(Skip(line, p), TokenEnd(line, Skip(line, p)))
  }

  predicate RedirKind(kind: char, mode: Mode, fd: nat) {
    (kind == '<' && mode == ReadOnly && fd == 0) || ((kind == '>' || kind == '+') && mode == WriteCreate && fd == 1)
  }

  /** An operator and a file name. */
  ghost predicate Redirection(line: string, p: nat, file: Span, mode: Mode, fd: nat, q: nat)
    requires p <= |line|
  {
    exists kind, m: nat :: p <= m < q && m <= |line| && RedirKind(kind, mode, fd) && Token(line, p, kind, m)
      && Word(line, m, file, q)
  }

  /** The command with one more argument, below the redirections that were read before it. */
  function AddArg(c: Cmd, w: Span): Cmd {
    match c
    case Exec(args) => Exec(args + [w])
    case Redir(d, file, mode, fd) => Redir(AddArg(d, w), file, mode, fd)
    case _ => c
  }

  /** Words and redirections in any order; they apply in the order they stand in. */
  ghost predicate IsSimple(line: string, c: Cmd, p: nat, q: nat)
    requires p <= q <= |line|
    decreases q - p, 0
  {
    || (c == Exec([]) && q == Skip(line, p))
    || (c.Redir? && exists m: nat ::
       p <= m < q && IsSimple(line, c.cmd, p, m) && Redirection(line, m, c.file, c.mode, c.fd, q))
    || (exists d: Cmd, w: Span, m: nat ::
       p <= m < q && c == AddArg(d, w) && IsSimple(line, d, p, m) && Word(line, m, w, q))
  }

  ghost predicate IsBlock(line: string, c: Cmd, p: nat, q: nat)
    requires p <= q <= |line|
    decreases q - p, 1
  {
    || (exists m: nat, n: nat ::
       p < m <= n < q && Token(line, p, '(', m) && IsLine(line, c, m, n) && Token(line, n, ')', q))
    || (c.Redir? && exists m: nat ::
       p <= m < q && IsBlock(line, c.cmd, p, m) && Redirection(line, m, c.file, c.mode, c.fd, q))
  }

  ghost predicate IsPipe(line: string, c: Cmd, p: nat, q: nat)
    requires p <= q <= |line|
    decreases q - p, 2
  {
    || IsSimple(line, c, p, q)
    || IsBlock(line, c, p, q)
    || (c.Pipe? && exists m: nat, n: nat ::
          p <= m < n <= q && (IsSimple(line, c.left, p, m) || IsBlock(line, c.left, p, m)) && Token(line, m, '|', n)
            && IsPipe(line, c.right, n, q))
  }

  ghost predicate IsBacks(line: string, c: Cmd, p: nat, q: nat)
    requires p <= q <= |line|
    decreases q - p, 3
  {
    || IsPipe(line, c, p, q)
    || (c.Back? && exists m: nat :: p <= m < q && IsBacks(line, c.cmd, p, m) && Token(line, m, '&', q))
  }

  ghost predicate IsLine(line: string, c: Cmd, p: nat, q: nat)
    requires p <= q <= |line|
    decreases q - p, 4
  {
    || IsBacks(line, c, p, q)
    || (c.List? && exists m: nat, n: nat ::
          p <= m < n <= q && IsBacks(line, c.left, p, m) && Token(line, m, ';', n) && IsLine(line, c.right, n, q))
  }

  // The words of a command are the words of its text

  function Spans(c: Cmd): seq<Span> {
    match c
    case Exec(args) => args
    case Redir(d, file, _, _) => Spans(d) + [file]
    case Pipe(l, r) => Spans(l) + Spans(r)
    case List(l, r) => Spans(l) + Spans(r)
    case Back(d) => Spans(d)
  }

  function After(line: string, p: nat): (q: nat)
    requires p <= |line|
    ensures p <= q <= |line| && (Skip(line, p) < |line| ==> p < q)
  {
    Skip(line, TokenEnd(line, Skip(line, p)))
  }

  /** There is a whole number of tokens between `p` and `q`. */
  ghost predicate Lexed(line: string, p: nat, q: nat)
    requires p <= |line|
    decreases |line| - p
  {
    q == Skip(line, p) || (Skip(line, p) < |line| && Lexed(line, After(line, p), q))
  }

  /** The words among them, in order. */
  ghost function Words(line: string, p: nat, q: nat): seq<Span>
    requires p <= |line| && Lexed(line, p, q)
    decreases |line| - p
  {
    var s := Skip(line, p);
    if q == s then []
      else (if Kind(line, s) == 'a' then [Span(s, TokenEnd(line, s))] else []) + Words(line, After(line, p), q)
  }

  ghost predicate WordSpan(line: string, w: Span) {
    && w.lo < w.hi <= |line| && (forall i :: w.lo <= i < w.hi ==> IsWord(line[i]))
    && (w.hi < |line| ==> !IsWord(line[w.hi]))
  }

  lemma {:induction false} LexedRange(line: string, p: nat, q: nat)
    requires p <= |line| && Lexed(line, p, q)
    ensures p <= q <= |line| && Skip(line, q) == q
    decreases |line| - p
  {
    Skipped(line, p);
    if q != Skip(line, p) {
      LexedRange(line, After(line, p), q);
    }
  }

  lemma {:induction false} LexedJoin(line: string, p: nat, m: nat, q: nat)
    requires p <= |line| && Lexed(line, p, m) && m <= |line| && Lexed(line, m, q)
    ensures Lexed(line, p, q) && Words(line, p, q) == Words(line, p, m) + Words(line, m, q)
    decreases |line| - p
  {
    hide Skip, TokenEnd, Kind;
    if m == Skip(line, p) {
      SkippedLexed(line, p, q);
      assert Words(line, p, m) == [];
    } else {
      var a := After(line, p);
      LexedJoin(line, a, m, q);
      LexedBefore(line, p, m, q);
      Append(Words(line, a, q), if Kind(line, Skip(line, p)) == 'a'
        then [Span(Skip(line, p), TokenEnd(line, Skip(line, p)))] else [],
        Words(line, a, m), Words(line, m, q));
    }
  }

  lemma Append(r: seq<Span>, h: seq<Span>, a: seq<Span>, b: seq<Span>)
    requires r == a + b
    ensures h + r == (h + a) + b
  {}

  lemma LexedBefore(line: string, p: nat, m: nat, q: nat)
    requires p <= |line| && m <= |line| && Lexed(line, p, m) && Lexed(line, m, q) && m != Skip(line, p)
    ensures q != Skip(line, p)
  {
    LexedRange(line, After(line, p), m);
    LexedRange(line, m, q);
    AfterMoves(line, p);
  }

  lemma AfterMoves(line: string, p: nat)
    requires p <= |line| && Skip(line, p) < |line|
    ensures Skip(line, p) < TokenEnd(line, Skip(line, p)) <= After(line, p)
  {}

  /** White space in front makes no difference. */
  lemma SkippedLexed(line: string, p: nat, q: nat)
    requires p <= |line| && Lexed(line, Skip(line, p), q)
    ensures Lexed(line, p, q) && Words(line, p, q) == Words(line, Skip(line, p), q)
  {
    Skipped(line, p);
  }

  lemma TokenLexed(line: string, p: nat, kind: char, q: nat)
    requires p <= |line| && Token(line, p, kind, q)
    ensures p < q <= |line| && Lexed(line, p, q)
    ensures Words(line, p, q) == if kind == 'a' then [Span(Skip(line, p), TokenEnd(line, Skip(line, p)))] else []
  {
    TokenMoves(line, p, kind, q);
    assert Lexed(line, q, q);
  }

  lemma TokenWord(line: string, s: nat)
    requires s < |line| && !IsSpace(line[s]) && Kind(line, s) == 'a'
    ensures WordSpan(line, Span(s, TokenEnd(line, s)))
  {
    forall i | s <= i < TokenEnd(line, s) ensures IsWord(line[i]) {
      WordAt(line, s, i);
    }
  }

  /** A word character in the first token or the white space around it is in that token. */
  lemma FirstToken(line: string, p: nat, i: nat)
    requires p <= |line| && p <= i < After(line, p) && Skip(line, p) < |line| && IsWord(line[i])
    ensures Kind(line, Skip(line, p)) == 'a' && Skip(line, p) <= i < TokenEnd(line, Skip(line, p))
  {
    var s := Skip(line, p);
    if i < s {
      SkipAt(line, p, i);
    } else if i >= TokenEnd(line, s) {
      SkipAt(line, TokenEnd(line, s), i);
    }
  }

  lemma {:induction false} WordsGood(line: string, p: nat, q: nat, k: nat)
    requires p <= |line| && Lexed(line, p, q) && k < |Words(line, p, q)|
    ensures WordSpan(line, Words(line, p, q)[k]) && p <= Words(line, p, q)[k].lo && Words(line, p, q)[k].hi <= q
    decreases |line| - p
  {
    hide Skip, TokenEnd, Kind, WordSpan;
    var s, a := Skip(line, p), After(line, p);
    AfterMoves(line, p);
    LexedRange(line, a, q);
    if Kind(line, s) == 'a' {
      TokenWord(line, s);
      if k > 0 {
        WordsGood(line, a, q, k - 1);
      }
    } else {
      WordsGood(line, a, q, k);
    }
  }

  /** The words are in order and apart from each other. */
  lemma {:induction false} WordsOrdered(line: string, p: nat, q: nat, k: nat, l: nat)
    requires p <= |line| && Lexed(line, p, q) && k < l < |Words(line, p, q)|
    ensures Words(line, p, q)[k].hi < Words(line, p, q)[l].lo
    decreases |line| - p
  {
    hide Skip, TokenEnd, Kind;
    var s, a := Skip(line, p), After(line, p);
    AfterMoves(line, p);
    if Kind(line, s) == 'a' {
      if k > 0 {
        WordsOrdered(line, a, q, k - 1, l - 1);
      } else {
        TokenWord(line, s);
        WordsGood(line, a, q, l - 1);
      }
    } else {
      WordsOrdered(line, a, q, k, l);
    }
  }

  /** Every word character is in one of them. */
  lemma {:induction false} WordsCover(line: string, p: nat, q: nat, i: nat) returns (k: nat)
    requires p <= |line| && Lexed(line, p, q) && p <= i < q && i < |line| && IsWord(line[i])
    ensures k < |Words(line, p, q)| && Words(line, p, q)[k].lo <= i < Words(line, p, q)[k].hi
    decreases |line| - p
  {
    hide TokenEnd, Kind;
    var s, a := Skip(line, p), After(line, p);
    if q == s {
      SkipAt(line, p, i);
      assert false;
    }
    if i < a {
      FirstToken(line, p, i);
      k := 0;
    } else {
      k := WordsCover(line, a, q, i);
      k := if Kind(line, s) == 'a' then k + 1 else k;
    }
  }

  /** The command uses exactly the words between `p` and `q`, each once. */
  ghost predicate Yields(line: string, c: Cmd, p: nat, q: nat)
    requires p <= |line|
  {
    Lexed(line, p, q) && multiset(Spans(c)) == multiset(Words(line, p, q))
  }

  lemma YieldsToken(line: string, c: Cmd, p: nat, m: nat, kind: char, q: nat)
    requires p <= m <= |line| && Yields(line, c, p, m) && Token(line, m, kind, q) && kind != 'a'
    ensures Yields(line, c, p, q)
  {
    TokenLexed(line, m, kind, q);
    LexedJoin(line, p, m, q);
    assert Words(line, p, q) == Words(line, p, m) + [];
  }

  lemma TokenYields(line: string, c: Cmd, p: nat, kind: char, m: nat, q: nat)
    requires p <= |line| && Token(line, p, kind, m) && kind != 'a' && m <= |line| && Yields(line, c, m, q)
    ensures Yields(line, c, p, q)
  {
    TokenLexed(line, p, kind, m);
    LexedJoin(line, p, m, q);
    assert Words(line, p, q) == [] + Words(line, m, q);
  }

  lemma YieldsBoth(line: string, c: Cmd, l: Cmd, r: Cmd, p: nat, m: nat, q: nat)
    requires p <= m <= |line| && Yields(line, l, p, m) && Yields(line, r, m, q) && Spans(c) == Spans(l) + Spans(r)
    ensures Yields(line, c, p, q)
  {
    LexedJoin(line, p, m, q);
  }

  lemma YieldsWord(line: string, c: Cmd, d: Cmd, w: Span, p: nat, m: nat, q: nat)
    requires p <= m <= |line| && Yields(line, d, p, m) && Word(line, m, w, q)
    requires multiset(Spans(c)) == multiset(Spans(d)) + multiset{w}
    ensures Yields(line, c, p, q)
  {
    TokenLexed(line, m, 'a', q);
    LexedJoin(line, p, m, q);
  }

  lemma YieldsRedir(line: string, c: Cmd, p: nat, m: nat, q: nat)
    requires c.Redir? && p <= m < q && m <= |line| && Yields(line, c.cmd, p, m)
    requires Redirection(line, m, c.file, c.mode, c.fd, q)
    ensures Yields(line, c, p, q)
  {
    var kind, n: nat :| m <= n < q && n <= |line| && RedirKind(kind, c.mode, c.fd) && Token(line, m, kind, n)
      && Word(line, n, c.file, q);
    YieldsToken(line, c.cmd, p, m, kind, n);
    YieldsWord(line, c, c.cmd, c.file, p, n, q);
  }

  predicate SimpleShape(c: Cmd) {
    c.Exec? || (c.Redir? && SimpleShape(c.cmd))
  }

  lemma {:induction false} AddArgSpans(c: Cmd, w: Span)
    requires SimpleShape(c)
    ensures SimpleShape(AddArg(c, w)) && multiset(Spans(AddArg(c, w))) == multiset(Spans(c)) + multiset{w}
  {
    if c.Redir? {
      AddArgSpans(c.cmd, w);
    }
  }

  lemma {:induction false} SimpleYields(line: string, c: Cmd, p: nat, q: nat)
    requires p <= q <= |line| && IsSimple(line, c, p, q)
    ensures SimpleShape(c) && Yields(line, c, p, q)
    decreases q - p, 0
  {
    if c == Exec([]) && q == Skip(line, p) {
    } else if c.Redir? && exists m: nat ::
        p <= m < q && IsSimple(line, c.cmd, p, m) && Redirection(line, m, c.file, c.mode, c.fd, q) {
      var m: nat :| p <= m < q && IsSimple(line, c.cmd, p, m) && Redirection(line, m, c.file, c.mode, c.fd, q);
      SimpleYields(line, c.cmd, p, m);
      YieldsRedir(line, c, p, m, q);
    } else {
      var d: Cmd, w: Span, m: nat :| p <= m < q && c == AddArg(d, w) && IsSimple(line, d, p, m) && Word(line, m, w, q);
      SimpleYields(line, d, p, m);
      AddArgSpans(d, w);
      YieldsWord(line, c, d, w, p, m, q);
    }
  }

  lemma {:induction false} BlockYields(line: string, c: Cmd, p: nat, q: nat)
    requires p <= q <= |line| && IsBlock(line, c, p, q)
    ensures Yields(line, c, p, q)
    decreases q - p, 1
  {
    if exists m: nat, n: nat :: p < m <= n < q && Token(line, p, '(', m) && IsLine(line, c, m, n)
        && Token(line, n, ')', q) {
      var m: nat, n: nat :| p < m <= n < q && Token(line, p, '(', m) && IsLine(line, c, m, n) && Token(line, n, ')', q);
      LineYields(line, c, m, n);
      YieldsToken(line, c, m, n, ')', q);
      TokenYields(line, c, p, '(', m, q);
    } else {
      var m: nat :| p <= m < q && IsBlock(line, c.cmd, p, m) && Redirection(line, m, c.file, c.mode, c.fd, q);
      BlockYields(line, c.cmd, p, m);
      YieldsRedir(line, c, p, m, q);
    }
  }

  lemma ExecYields(line: string, c: Cmd, p: nat, q: nat)
    requires p <= q <= |line| && (IsSimple(line, c, p, q) || IsBlock(line, c, p, q))
    ensures Yields(line, c, p, q)
    decreases q - p, 2
  {
    if IsSimple(line, c, p, q) {
      SimpleYields(line, c, p, q);
    } else {
      BlockYields(line, c, p, q);
    }
  }

  lemma {:induction false} PipeYields(line: string, c: Cmd, p: nat, q: nat)
    requires p <= q <= |line| && IsPipe(line, c, p, q)
    ensures Yields(line, c, p, q)
    decreases q - p, 3
  {
    if IsSimple(line, c, p, q) || IsBlock(line, c, p, q) {
      ExecYields(line, c, p, q);
    } else {
      var m: nat, n: nat :| p <= m < n <= q && (IsSimple(line, c.left, p, m) || IsBlock(line, c.left, p, m))
        && Token(line, m, '|', n) && IsPipe(line, c.right, n, q);
      ExecYields(line, c.left, p, m);
      PipeYields(line, c.right, n, q);
      TokenYields(line, c.right, m, '|', n, q);
      YieldsBoth(line, c, c.left, c.right, p, m, q);
    }
  }

  lemma {:induction false} BacksYields(line: string, c: Cmd, p: nat, q: nat)
    requires p <= q <= |line| && IsBacks(line, c, p, q)
    ensures Yields(line, c, p, q)
    decreases q - p, 4
  {
    if IsPipe(line, c, p, q) {
      PipeYields(line, c, p, q);
    } else {
      var m: nat :| p <= m < q && IsBacks(line, c.cmd, p, m) && Token(line, m, '&', q);
      BacksYields(line, c.cmd, p, m);
      YieldsToken(line, c.cmd, p, m, '&', q);
    }
  }

  /** Every word of the text is in the command exactly once, and nothing else is. */
  lemma {:induction false} LineYields(line: string, c: Cmd, p: nat, q: nat)
    requires p <= q <= |line| && IsLine(line, c, p, q)
    ensures Yields(line, c, p, q)
    decreases q - p, 5
  {
    if IsBacks(line, c, p, q) {
      BacksYields(line, c, p, q);
    } else {
      var m: nat, n: nat :| p <= m < n <= q && IsBacks(line, c.left, p, m) && Token(line, m, ';', n)
        && IsLine(line, c.right, n, q);
      BacksYields(line, c.left, p, m);
      LineYields(line, c.right, n, q);
      TokenYields(line, c.right, m, ';', n, q);
      YieldsBoth(line, c, c.left, c.right, p, m, q);
    }
  }
}
