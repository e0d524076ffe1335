/**
 A command says what its text says, in the order of the text: arguments one after the other, redirections inside
 out, both sides of a bar or semicolon on their sides of it, and each file behind the operator it belongs to.
 */
module ShellOrder {
  import opened ShellGrammar

  /** All words of `c` lie between `lo` and `hi`. */
  ghost predicate Within(c: Cmd, lo: nat, hi: nat) {
    forall w :: w in Spans(c) ==> lo <= w.lo && w.hi <= hi
  }

  /** Operator `op` stands at `i`, behind all words of `l`. */
  ghost predicate Closed(line: string, l: Cmd, i: nat, op: char) {
    i < |line| && line[i] == op && Within(l, 0, i)
  }

  /** Operator `op` has all words of `l` before and all words of `r` behind it. */
  ghost predicate Parted(line: string, l: Cmd, r: Cmd, op: char) {
    exists i: nat :: Closed(line, l, i, op) && Within(r, i + 1, |line|)
  }

  /** The file stands right behind `<` to be read as file 0, behind `>` or `>>` to be written as file 1. */
  ghost predicate FileBehind(line: string, file: Span, mode: Mode, fd: nat) {
    if mode == ReadOnly then fd == 0 && exists i: nat :: Operator(line, i, file.lo, '<')
    else fd == 1 && exists i: nat :: Operator(line, i, file.lo, '>')
  }

  /** Operator `op` at `i`, for `>` perhaps doubled, and nothing but blanks from there to `at`. */
  ghost predicate Operator(line: string, i: nat, at: nat, op: char) {
    && i < at < |line| && line[i] == op
    && forall j :: i < j < at ==> IsSpace(line[j]) || (j == i + 1 && op == line[j] == '>')
  }

  ghost predicate InOrder(line: string, c: Cmd) {
    match c
    case Exec(args) => forall k, l :: 0 <= k < l < |args| ==> args[k].hi < args[l].lo
    case Redir(d, file, mode, fd) =>
      InOrder(line, d) && (d.Redir? ==> d.file.hi < file.lo) && FileBehind(line, file, mode, fd)
    case Pipe(l, r) => InOrder(line, l) && InOrder(line, r) && Parted(line, l, r, '|')
    case List(l, r) => InOrder(line, l) && InOrder(line, r) && Parted(line, l, r, ';')
    case Back(d) => InOrder(line, d) && exists i: nat :: Closed(line, d, i, '&')
  }

  // Where the words are

  lemma SpansIn(line: string, c: Cmd, p: nat, q: nat)
    requires p <= q <= |line| && Yields(line, c, p, q)
    ensures Within(c, p, q) && forall w :: w in Spans(c) ==> WordSpan(line, w)
  {
    hide WordSpan, Words, Spans;
    forall w | w in Spans(c) ensures p <= w.lo && w.hi <= q && WordSpan(line, w) {
      assert w in multiset(Spans(c));
      assert w in Words(line, p, q);
      var k :| 0 <= k < |Words(line, p, q)| && Words(line, p, q)[k] == w;
      WordsGood(line, p, q, k);
    }
  }

  /** A word that starts at or after the end of another starts after it. */
  lemma NextWord(line: string, v: Span, p: nat, w: Span, q: nat)
    requires p <= |line| && WordSpan(line, v) && v.hi <= p && Word(line, p, w, q)
    ensures v.hi < w.lo && p <= w.lo < |line|
  {
    TokenWord(line, w.lo);
  }

  /** An operator and its place. */
  lemma OperatorAt(line: string, p: nat, kind: char, q: nat)
    requires p <= |line| && Token(line, p, kind, q) && kind != 'a'
    ensures var i := Skip(line, p);
      && p <= i < q <= |line| && line[i] == (if kind == '+' then '>' else kind)
      && forall j :: i < j < q ==> IsSpace(line[j]) || (j == i + 1 && line[i] == line[j] == '>')
  {
    TokenMoves(line, p, kind, q);
    var i := Skip(line, p);
    var e := TokenEnd(line, i);
    forall j | i < j < q ensures IsSpace(line[j]) || (j == i + 1 && line[i] == line[j] == '>') {
      if j >= e {
        SkipAt(line, e, j);
      }
    }
  }

  lemma FileAt(line: string, p: nat, file: Span, mode: Mode, fd: nat, q: nat)
    requires p <= |line| && Redirection(line, p, file, mode, fd, q)
    ensures FileBehind(line, file, mode, fd) && p <= file.lo < |line|
    ensures forall v :: WordSpan(line, v) && v.hi <= p ==> v.hi < file.lo
  {
    var kind, m: nat :| p <= m < q && m <= |line| && RedirKind(kind, mode, fd) && Token(line, p, kind, m)
      && Word(line, m, file, q);
    OperatorAt(line, p, kind, m);
    TokenMoves(line, p, kind, m);
    var i := Skip(line, p);
    assert file.lo == m;
    assert Operator(line, i, file.lo, if mode == ReadOnly then '<' else '>');
    forall v | WordSpan(line, v) && v.hi <= p ensures v.hi < file.lo {
      NextWord(line, v, m, file, q);
    }
  }

  // Simple commands

  lemma {:induction false} AddArgOrder(line: string, c: Cmd, w: Span)
    requires SimpleShape(c) && InOrder(line, c) && forall v :: v in Spans(c) ==> v.hi < w.lo
    ensures InOrder(line, AddArg(c, w))
  {
    if c.Redir? {
      assert forall v :: v in Spans(c.cmd) ==> v in Spans(c);
      AddArgOrder(line, c.cmd, w);
    } else {
      var args := c.args;
      assert forall k :: 0 <= k < |args| ==> args[k] in Spans(c);
    }
  }

  lemma {:induction false} SimpleOrder(line: string, c: Cmd, p: nat, q: nat)
    requires p <= q <= |line| && IsSimple(line, c, p, q)
    ensures InOrder(line, c)
    decreases q - p, 0
  {
    if c == Exec([]) && q == Skip(line, p) {
    } else if c.Redir? && exists m: nat ::
        p <= m < q && IsSimple(line, c.cmd, p, m) && Redirection(line, m, c.file, c.mode, c.fd, q) {
      var m: nat :| p <= m < q && IsSimple(line, c.cmd, p, m) && Redirection(line, m, c.file, c.mode, c.fd, q);
      SimpleOrder(line, c.cmd, p, m);
      SimpleYields(line, c.cmd, p, m);
      RedirOrder(line, c, p, m, q);
    } else {
      var d: Cmd, w: Span, m: nat :| p <= m < q && c == AddArg(d, w) && IsSimple(line, d, p, m) && Word(line, m, w, q);
      SimpleOrder(line, d, p, m);
      SimpleYields(line, d, p, m);
      SpansIn(line, d, p, m);
      forall v | v in Spans(d) ensures v.hi < w.lo {
        NextWord(line, v, m, w, q);
      }
      AddArgOrder(line, d, w);
    }
  }

  lemma RedirOrder(line: string, c: Cmd, p: nat, m: nat, q: nat)
    requires c.Redir? && p <= m < q <= |line| && InOrder(line, c.cmd) && Yields(line, c.cmd, p, m)
    requires Redirection(line, m, c.file, c.mode, c.fd, q)
    ensures InOrder(line, c)
  {
    hide Yields, WordSpan, FileBehind, Redirection;
    SpansIn(line, c.cmd, p, m);
    FileAt(line, m, c.file, c.mode, c.fd, q);
    if c.cmd.Redir? {
      assert c.cmd.file in Spans(c.cmd);
    }
  }

  // The rest of the grammar

  lemma {:induction false} BlockOrder(line: string, c: Cmd, p: nat, q: nat)
    requires p <= q <= |line| && IsBlock(line, c, p, q)
    ensures InOrder(line, c)
    decreases q - p, 1
  {
    if exists m: nat, n: nat :: p < m <= n < q && Token(line, p, '(', m) && IsLine(line, c, m, n)
        && Token(line, n, ')', q) {
      var m: nat, n: nat :| p < m <= n < q && Token(line, p, '(', m) && IsLine(line, c, m, n) && Token(line, n, ')', q);
      LineOrder(line, c, m, n);
    } else {
      var m: nat :| p <= m < q && IsBlock(line, c.cmd, p, m) && Redirection(line, m, c.file, c.mode, c.fd, q);
      BlockOrder(line, c.cmd, p, m);
      BlockYields(line, c.cmd, p, m);
      RedirOrder(line, c, p, m, q);
    }
  }

  lemma ExecOrder(line: string, c: Cmd, p: nat, q: nat)
    requires p <= q <= |line| && (IsSimple(line, c, p, q) || IsBlock(line, c, p, q))
    ensures InOrder(line, c)
    decreases q - p, 2
  {
    if IsSimple(line, c, p, q) {
      SimpleOrder(line, c, p, q);
    } else {
      BlockOrder(line, c, p, q);
    }
  }

  lemma PartedBy(line: string, l: Cmd, r: Cmd, p: nat, m: nat, op: char, n: nat, q: nat)
    requires p <= m <= |line| && Yields(line, l, p, m) && Token(line, m, op, n) && op != 'a' && op != '+'
    requires n <= q <= |line| && Yields(line, r, n, q)
    ensures Parted(line, l, r, op)
  {
    SpansIn(line, l, p, m);
    SpansIn(line, r, n, q);
    OperatorAt(line, m, op, n);
    assert Closed(line, l, Skip(line, m), op);
  }

  lemma {:induction false} PipeOrder(line: string, c: Cmd, p: nat, q: nat)
    requires p <= q <= |line| && IsPipe(line, c, p, q)
    ensures InOrder(line, c)
    decreases q - p, 3
  {
    hide IsSimple, IsBlock, Yields, Parted;
    if IsSimple(line, c, p, q) || IsBlock(line, c, p, q) {
      ExecOrder(line, c, p, q);
    } else {
      var m: nat, n: nat :| p <= m < n <= q && (IsSimple(line, c.left, p, m) || IsBlock(line, c.left, p, m))
        && Token(line, m, '|', n) && IsPipe(line, c.right, n, q);
      ExecOrder(line, c.left, p, m);
      PipeOrder(line, c.right, n, q);
      ExecYields(line, c.left, p, m);
      PipeYields(line, c.right, n, q);
      PartedBy(line, c.left, c.right, p, m, '|', n, q);
    }
  }

  lemma {:induction false} BacksOrder(line: string, c: Cmd, p: nat, q: nat)
    requires p <= q <= |line| && IsBacks(line, c, p, q)
    ensures InOrder(line, c)
    decreases q - p, 4
  {
    hide IsPipe, Yields;
    if IsPipe(line, c, p, q) {
      PipeOrder(line, c, p, q);
    } else {
      var m: nat :| p <= m < q && IsBacks(line, c.cmd, p, m) && Token(line, m, '&', q);
      BacksOrder(line, c.cmd, p, m);
      BacksYields(line, c.cmd, p, m);
      SpansIn(line, c.cmd, p, m);
      OperatorAt(line, m, '&', q);
      assert Closed(line, c.cmd, Skip(line, m), '&');
    }
  }

  /** Every command of the language is in the order of its text. */
  lemma {:induction false} LineOrder(line: string, c: Cmd, p: nat, q: nat)
    requires p <= q <= |line| && IsLine(line, c, p, q)
    ensures InOrder(line, c)
    decreases q - p, 5
  {
    hide IsBacks, Yields, Parted;
    if IsBacks(line, c, p, q) {
      BacksOrder(line, c, p, q);
    } else {
      var m: nat, n: nat :| p <= m < n <= q && IsBacks(line, c.left, p, m) && Token(line, m, ';', n)
        && IsLine(line, c.right, n, q);
      BacksOrder(line, c.left, p, m);
      LineOrder(line, c.right, n, q);
      BacksYields(line, c.left, p, m);
      LineYields(line, c.right, n, q);
      PartedBy(line, c.left, c.right, p, m, ';', n, q);
    }
  }
}
