/**
 The parser of sh.c as functions, and that it accepts every line of the language: a derivation leads the
 parser through the same states.
 */
module ShellSpec {
  import opened ShellGrammar

  const MAXARGS := 10

  datatype Parsed = Fail | Ok(cmd: Cmd, q: nat)

  /** No command has as many arguments as its table has places, one of which is for the end. */
  predicate ArgsFit(c: Cmd) {
    match c
    case Exec(args) => |args| < MAXARGS
    case Redir(d, _, _, _) => ArgsFit(d)
    case Pipe(l, r) => ArgsFit(l) && ArgsFit(r)
    case List(l, r) => ArgsFit(l) && ArgsFit(r)
    case Back(d) => ArgsFit(d)
  }

  function Args(c: Cmd): nat {
    match c
    case Exec(args) => |args|
    case Redir(d, _, _, _) => Args(d)
    case _ => 0
  }

  predicate Next(line: string, p: nat, toks: string)
    requires p <= |line|
  {
    Skip(line, p) < |line| && line[Skip(line, p)] in toks
  }

  predicate WordNext(line: string, p: nat)
    requires p <= |line|
  {
    Skip(line, p) < |line| && Kind(line, Skip(line, p)) == 'a'
  }

  function SpanAt(line: string, p: nat): Span
    requires p <= |line|
  {
    Span(Skip(line, p), TokenEnd(line, Skip(line, p)))
  }

  /** The command with the redirection that starts at `p`. */
  function Redirected(line: string, c: Cmd, p: nat): Cmd
    requires p <= |line|
  {
    if Kind(line, Skip(line, p)) == '<' then Redir(c, SpanAt(line, After(line, p)), ReadOnly, 0)
    else Redir(c, SpanAt(line, After(line, p)), WriteCreate, 1)
  }

  function Redirs(line: string, c: Cmd, p: nat): (r: Parsed)
    requires p <= |line|
    ensures r.Ok? ==> p <= r.q <= |line|
    decreases |line| - p
  {
    if Next(line, p, "<>") then
      var m := After(line, p);
      if WordNext(line, m) then Redirs(line, Redirected(line, c, p), After(line, m)) else Fail
    else Ok(c, Skip(line, p))
  }

  /** Words and redirections, until a symbol or the end. */
  function Simple(line: string, c: Cmd, p: nat): (r: Parsed)
    requires p <= |line|
    ensures r.Ok? ==> p <= r.q <= |line|
    decreases |line| - p
  {
    if Next(line, p, "<>") then
      var m := After(line, p);
      if WordNext(line, m) then Simple(line, Redirected(line, c, p), After(line, m)) else Fail
    else if Skip(line, p) == |line| || Next(line, p, "|)&;") then Ok(c, Skip(line, p))
    else if WordNext(line, p) && Args(c) + 1 < MAXARGS then Simple(line, AddArg(c, SpanAt(line, p)), After(line, p))
    else Fail
  }

  function Block(line: string, p: nat): (r: Parsed)
    requires p <= |line| && Next(line, p, "(")
    ensures r.Ok? ==> p <= r.q <= |line|
    decreases |line| - p, 1
  {
    var inner := Line(line, After(line, p));
    if inner.Ok? && Next(line, inner.q, ")") then Redirs(line, inner.cmd, After(line, inner.q)) else Fail
  }

  function Command(line: string, p: nat): (r: Parsed)
    requires p <= |line|
    ensures r.Ok? ==> p <= r.q <= |line|
    decreases |line| - p, 2
  {
    if Next(line, p, "(") then Block(line, p) else Simple(line, Exec([]), Skip(line, p))
  }

  function Pipeline(line: string, p: nat): (r: Parsed)
    requires p <= |line|
    ensures r.Ok? ==> p <= r.q <= |line|
    decreases |line| - p, 3
  {
    var left := Command(line, p);
    if left.Ok? && Next(line, left.q, "|") then
      var right := Pipeline(line, After(line, left.q));
      if right.Ok? then Ok(Pipe(left.cmd, right.cmd), right.q) else Fail
    else left
  }

  /** What follows a pipeline: ampersands, and then perhaps a semicolon and more. */
  function Tail(line: string, c: Cmd, p: nat): (r: Parsed)
    requires p <= |line|
    ensures r.Ok? ==> p <= r.q <= |line|
    decreases |line| - p, 4
  {
    if Next(line, p, "&") then Tail(line, Back(c), After(line, p))
    else if Next(line, p, ";") then
      var right := Line(line, After(line, p));
      if right.Ok? then Ok(List(c, right.cmd), right.q) else Fail
    else Ok(c, Skip(line, p))
  }

  function Line(line: string, p: nat): (r: Parsed)
    requires p <= |line|
    ensures r.Ok? ==> p <= r.q <= |line|
    decreases |line| - p, 5
  {
    var first := Pipeline(line, p);
    if first.Ok? then Tail(line, first.cmd, first.q) else Fail
  }

  // Completeness

  /** What may follow a command, a pipeline and a line. */
  predicate Ends(line: string, q: nat, toks: string)
    requires q <= |line|
  {
    q == Skip(line, q) && (q == |line| || line[q] in toks)
  }

  lemma TokenIs(line: string, p: nat, kind: char, q: nat)
    requires p <= |line| && Token(line, p, kind, q)
    ensures Skip(line, p) < |line| && Kind(line, Skip(line, p)) == kind && q == After(line, p) && q == Skip(line, q)
      && p < q <= |line|
    ensures IsSymbol(kind) ==> Next(line, p, [kind])
    ensures kind == '+' ==> Next(line, p, ">")
  {
    TokenMoves(line, p, kind, q);
  }

  lemma RedirectionIs(line: string, c: Cmd, p: nat, q: nat)
    requires c.Redir? && p <= |line| && Redirection(line, p, c.file, c.mode, c.fd, q)
    ensures Next(line, p, "<>") && WordNext(line, After(line, p)) && q == After(line, After(line, p))
      && q == Skip(line, q)
    ensures c == Redirected(line, c.cmd, p)
  {
    var kind, m: nat :| p <= m < q && m <= |line| && RedirKind(kind, c.mode, c.fd) && Token(line, p, kind, m)
      && Word(line, m, c.file, q);
    TokenIs(line, p, kind, m);
    TokenIs(line, m, 'a', q);
  }

  lemma {:induction false} SkippedSimple(line: string, c: Cmd, p: nat)
    requires p <= |line|
    ensures Simple(line, c, Skip(line, p)) == Simple(line, c, p)
  {
    Skipped(line, p);
  }

  lemma RedirSteps(line: string, c: Cmd, p: nat)
    requires p <= |line|
    ensures Next(line, p, "<>") ==>
      var m := After(line, p);
      if WordNext(line, m) then
        var d := Redirected(line, c, p);
        Redirs(line, c, p) == Redirs(line, d, After(line, m)) && Simple(line, c, p) == Simple(line, d, After(line, m))
      else
        Redirs(line, c, p) == Simple(line, c, p) == Fail
    ensures !Next(line, p, "<>") ==> Redirs(line, c, p) == Ok(c, Skip(line, p))
  {}

  lemma SimpleSteps(line: string, c: Cmd, p: nat)
    requires p <= |line|
    ensures Next(line, p, "<>") && WordNext(line, After(line, p)) ==>
      Simple(line, c, p) == Simple(line, Redirected(line, c, p), After(line, After(line, p)))
    ensures WordNext(line, p) && Args(c) + 1 < MAXARGS ==>
      Simple(line, c, p) == Simple(line, AddArg(c, SpanAt(line, p)), After(line, p))
    ensures Ends(line, p, "|)&;") ==> Simple(line, c, p) == Ok(c, p)
    ensures !Next(line, p, "<>|)&;") && Skip(line, p) < |line| && !(WordNext(line, p) && Args(c) + 1 < MAXARGS) ==>
      Simple(line, c, p) == Fail
  {}

  /** A derivation of a simple command leads the parser to its end, with the same command. */
  lemma {:induction false} SimpleReaches(line: string, c: Cmd, p: nat, q: nat)
    requires p <= q <= |line| && IsSimple(line, c, p, q) && Args(c) < MAXARGS
    ensures Simple(line, Exec([]), p) == Simple(line, c, q) && q == Skip(line, q) && SimpleShape(c)
    decreases q - p
  {
    hide Simple, Skip, Kind, TokenEnd, Redirected;
    if c == Exec([]) && q == Skip(line, p) {
      SkippedSimple(line, c, p);
      Skipped(line, p);
    } else if c.Redir? && exists m: nat ::
        p <= m < q && IsSimple(line, c.cmd, p, m) && Redirection(line, m, c.file, c.mode, c.fd, q) {
      var m: nat :| p <= m < q && IsSimple(line, c.cmd, p, m) && Redirection(line, m, c.file, c.mode, c.fd, q);
      SimpleReaches(line, c.cmd, p, m);
      RedirectionIs(line, c, m, q);
      SimpleSteps(line, c.cmd, m);
    } else {
      var d: Cmd, w: Span, m: nat :| p <= m < q && c == AddArg(d, w) && IsSimple(line, d, p, m) && Word(line, m, w, q);
      hide IsSimple;
      SimpleYields(line, d, p, m);
      OneMoreArg(d, w);
      SimpleReaches(line, d, p, m);
      TokenIs(line, m, 'a', q);
      SimpleSteps(line, d, m);
    }
  }

  lemma {:induction false} OneMoreArg(c: Cmd, w: Span)
    requires SimpleShape(c)
    ensures SimpleShape(AddArg(c, w)) && Args(AddArg(c, w)) == Args(c) + 1
  {
    if c.Redir? {
      OneMoreArg(c.cmd, w);
    }
  }

  lemma {:induction false} FitArgs(c: Cmd)
    requires SimpleShape(c)
    ensures ArgsFit(c) <==> Args(c) < MAXARGS
  {
    if c.Redir? {
      FitArgs(c.cmd);
    }
  }

  /** A simple command does not start with a parenthesis. */
  lemma {:induction false} SimpleStart(line: string, c: Cmd, p: nat, q: nat)
    requires p <= q <= |line| && IsSimple(line, c, p, q) && q != Skip(line, p)
    ensures !Next(line, p, "(")
    decreases q - p
  {
    if c.Redir? && exists m: nat ::
        p <= m < q && IsSimple(line, c.cmd, p, m) && Redirection(line, m, c.file, c.mode, c.fd, q) {
      var m: nat :| p <= m < q && IsSimple(line, c.cmd, p, m) && Redirection(line, m, c.file, c.mode, c.fd, q);
      if m != Skip(line, p) {
        SimpleStart(line, c.cmd, p, m);
      } else {
        Skipped(line, p);
        RedirectionIs(line, c, m, q);
      }
    } else {
      var d: Cmd, w: Span, m: nat :| p <= m < q && c == AddArg(d, w) && IsSimple(line, d, p, m) && Word(line, m, w, q);
      if m != Skip(line, p) {
        SimpleStart(line, d, p, m);
      } else {
        Skipped(line, p);
        TokenIs(line, m, 'a', q);
      }
    }
  }

  lemma {:induction false} BlockReaches(line: string, c: Cmd, p: nat, q: nat)
    requires p <= q <= |line| && IsBlock(line, c, p, q) && ArgsFit(c)
    ensures Next(line, p, "(") && Block(line, p) == Redirs(line, c, q) && q == Skip(line, q)
    decreases q - p, 1
  {
    if exists m: nat, n: nat :: p < m <= n < q && Token(line, p, '(', m) && IsLine(line, c, m, n)
        && Token(line, n, ')', q) {
      var m: nat, n: nat :| p < m <= n < q && Token(line, p, '(', m) && IsLine(line, c, m, n) && Token(line, n, ')', q);
      TokenIs(line, p, '(', m);
      TokenIs(line, n, ')', q);
      LineYields(line, c, m, n);
      LexedRange(line, m, n);
      LineReaches(line, c, m, n);
    } else {
      var m: nat :| p <= m < q && IsBlock(line, c.cmd, p, m) && Redirection(line, m, c.file, c.mode, c.fd, q);
      BlockReaches(line, c.cmd, p, m);
      RedirectionIs(line, c, m, q);
    }
  }

  lemma CommandReaches(line: string, c: Cmd, p: nat, q: nat)
    requires p <= q <= |line| && (IsSimple(line, c, p, q) || IsBlock(line, c, p, q)) && ArgsFit(c)
      && Ends(line, q, "|)&;")
    ensures Command(line, p) == Ok(c, q)
    decreases q - p, 2
  {
    hide Simple, IsSimple, IsBlock, Block, Kind, TokenEnd;
    if IsBlock(line, c, p, q) {
      BlockReaches(line, c, p, q);
    } else {
      SimpleYields(line, c, p, q);
      FitArgs(c);
      SimpleReaches(line, c, p, q);
      SkippedSimple(line, Exec([]), p);
      SimpleSteps(line, c, q);
      if q != Skip(line, p) {
        SimpleStart(line, c, p, q);
      }
    }
  }

  lemma {:induction false} PipelineReaches(line: string, c: Cmd, p: nat, q: nat)
    requires p <= q <= |line| && IsPipe(line, c, p, q) && ArgsFit(c) && Ends(line, q, ")&;")
    ensures Pipeline(line, p) == Ok(c, q)
    decreases q - p, 3
  {
    hide IsSimple, IsBlock, Kind, TokenEnd, Simple, Block;
    if IsSimple(line, c, p, q) || IsBlock(line, c, p, q) {
      CommandReaches(line, c, p, q);
    } else {
      var m: nat, n: nat :| p <= m < n <= q && (IsSimple(line, c.left, p, m) || IsBlock(line, c.left, p, m))
        && Token(line, m, '|', n) && IsPipe(line, c.right, n, q);
      TokenIs(line, m, '|', n);
      ExecYields(line, c.left, p, m);
      LexedRange(line, p, m);
      CommandReaches(line, c.left, p, m);
      PipelineReaches(line, c.right, n, q);
    }
  }

  lemma {:induction false} BacksReach(line: string, c: Cmd, p: nat, q: nat)
    requires p <= q <= |line| && IsBacks(line, c, p, q) && ArgsFit(c) && Ends(line, q, ")&;")
    ensures Line(line, p) == Tail(line, c, q)
    decreases q - p, 4
  {
    if IsPipe(line, c, p, q) {
      PipelineReaches(line, c, p, q);
    } else {
      var m: nat :| p <= m < q && IsBacks(line, c.cmd, p, m) && Token(line, m, '&', q);
      TokenIs(line, m, '&', q);
      BacksYields(line, c.cmd, p, m);
      LexedRange(line, p, m);
      BacksReach(line, c.cmd, p, m);
    }
  }

  /** Every line of the language whose commands do not have too many arguments is accepted, as what it is. */
  lemma {:induction false} LineReaches(line: string, c: Cmd, p: nat, q: nat)
    requires p <= q <= |line| && IsLine(line, c, p, q) && ArgsFit(c) && Ends(line, q, ")")
    ensures Line(line, p) == Ok(c, q)
    decreases q - p, 5
  {
    if IsBacks(line, c, p, q) {
      BacksReach(line, c, p, q);
    } else {
      var m: nat, n: nat :| p <= m < n <= q && IsBacks(line, c.left, p, m) && Token(line, m, ';', n)
        && IsLine(line, c.right, n, q);
      TokenIs(line, m, ';', n);
      BacksYields(line, c.left, p, m);
      LexedRange(line, p, m);
      BacksReach(line, c.left, p, m);
      LineReaches(line, c.right, n, q);
    }
  }

  /** So a line has at most one meaning. */
  lemma Unambiguous(line: string, c: Cmd, d: Cmd)
    requires IsLine(line, c, 0, |line|) && ArgsFit(c) && IsLine(line, d, 0, |line|) && ArgsFit(d)
    ensures c == d
  {
    assert Ends(line, |line|, ")");
    LineReaches(line, c, 0, |line|);
    LineReaches(line, d, 0, |line|);
  }
}
