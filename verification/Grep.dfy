/**
 The matcher of grep.c against what its patterns mean: a pattern is a list of items, and it matches where
 the text can be cut into one piece per item.
 */
module Grep {
  datatype Item = One(c: char) | Star(c: char) | End

  /** A pattern as its items; `$` is special only at the end, `*` only after a character. */
  function Parse(re: string): (items: seq<Item>)
    ensures |items| <= |re|
  {
    if re == "" then []
    else if |re| > 1 && re[1] == '*' then [Star(re[0])] + Parse(re[2..])
    else if re == "$" then [End]
    else [One(re[0])] + Parse(re[1..])
  }

  predicate Accepts(c: char, x: char) {
    c == '.' || c == x
  }

  /** The item takes the first `n` characters of `s`. */
  ghost predicate Takes(it: Item, s: string, n: nat) {
    match it
    case One(c) => n == 1 <= |s| && Accepts(c, s[0])
    case Star(c) => n <= |s| && forall i :: 0 <= i < n ==> Accepts(c, s[i])
    case End => n == 0 == |s|
  }

  /** Cutting the text at these places gives each item its piece. */
  ghost predicate Cut(items: seq<Item>, text: string, cuts: seq<nat>) {
    && |cuts| == |items| + 1 && cuts[0] == 0
    && (forall i :: 0 <= i <= |items| ==> cuts[i] <= |text|)
    && forall i :: 0 <= i < |items| ==>
       cuts[i] <= cuts[i + 1] && Takes(items[i], text[cuts[i]..], cuts[i + 1] - cuts[i])
  }

  ghost predicate Here(items: seq<Item>, text: string) {
    exists cuts: seq<nat> :: Cut(items, text, cuts)
  }

  /** A pattern matches a text: at its start after `^`, anywhere otherwise. */
  ghost predicate Matches(re: string, text: string) {
    if re != "" && re[0] == '^' then Here(Parse(re[1..]), text)
    else exists k: nat :: k <= |text| && Here(Parse(re), text[k..])
  }

  lemma HereNone(text: string)
    ensures Here([], text)
  {
    assert Cut([], text, [0]);
  }

  /** The first item takes some characters, the other items match after them. */
  lemma HereFirst(it: Item, rest: seq<Item>, text: string)
    ensures Here([it] + rest, text) <==> exists n: nat :: Takes(it, text, n) && n <= |text| && Here(rest, text[n..])
  {
    var items := [it] + rest;
    if Here(items, text) {
      var cuts :| Cut(items, text, cuts);
      var n := cuts[1];
      assert text[cuts[0]..] == text && Takes(it, text, n);
      AfterFirst(items, text, cuts);
    }
    if exists n: nat :: Takes(it, text, n) && n <= |text| && Here(rest, text[n..]) {
      var n: nat :| Takes(it, text, n) && n <= |text| && Here(rest, text[n..]);
      var cuts :| Cut(rest, text[n..], cuts);
      WithFirst(it, rest, text, n, cuts);
    }
  }

  lemma AfterFirst(items: seq<Item>, text: string, cuts: seq<nat>)
    requires |items| > 0 && Cut(items, text, cuts)
    ensures Here(items[1..], text[cuts[1]..])
  {
    var n, rest := cuts[1], items[1..];
    forall i | 1 <= i <= |items| ensures n <= cuts[i] <= |text| {
      UpTo(items, text, cuts, i);
    }
    var cuts': seq<nat> := seq(|items|, i requires 0 <= i < |items| => if cuts[i + 1] >= n then cuts[i + 1] - n else 0);
    var tail := text[n..];
    forall i | 0 <= i <= |rest| ensures cuts'[i] <= |tail| {
      assert n <= cuts[i + 1] <= |text|;
    }
    forall i | 0 <= i < |rest|
      ensures cuts'[i] <= cuts'[i + 1] && Takes(rest[i], tail[cuts'[i]..], cuts'[i + 1] - cuts'[i])
    {
      assert n <= cuts[i + 1] <= cuts[i + 2];
      assert Takes(items[i + 1], text[cuts[i + 1]..], cuts[i + 2] - cuts[i + 1]);
      assert tail[cuts'[i]..] == text[cuts[i + 1]..];
    }
    assert Cut(rest, tail, cuts');
  }

  lemma {:induction false} UpTo(items: seq<Item>, text: string, cuts: seq<nat>, i: nat)
    requires Cut(items, text, cuts) && 1 <= i <= |items|
    ensures cuts[1] <= cuts[i]
  {
    if i > 1 {
      UpTo(items, text, cuts, i - 1);
    }
  }

  lemma WithFirst(it: Item, rest: seq<Item>, text: string, n: nat, cuts: seq<nat>)
    requires n <= |text| && Takes(it, text, n) && Cut(rest, text[n..], cuts)
    ensures Here([it] + rest, text)
  {
    var items := [it] + rest;
    var cuts': seq<nat> := [0] + seq(|cuts|, i requires 0 <= i < |cuts| => cuts[i] + n);
    forall i | 0 <= i < |items|
      ensures cuts'[i] <= cuts'[i + 1] && Takes(items[i], text[cuts'[i]..], cuts'[i + 1] - cuts'[i])
    {
      if i == 0 {
        assert text[0..] == text;
      } else {
        assert Takes(rest[i - 1], text[n..][cuts[i - 1]..], cuts[i] - cuts[i - 1]);
        assert text[n..][cuts[i - 1]..] == text[cuts'[i]..];
      }
    }
    assert Cut(items, text, cuts');
  }

  // The program

  /** match: grep.c:72-81. */
  method Match(re: string, text: string) returns (b: bool)
    ensures b <==> Matches(re, text)
  {
    if re != "" && re[0] == '^' {
      b := MatchHere(re[1..], text);
      return;
    }
    var i := 0;
    while true
      invariant 0 <= i <= |text|
      invariant forall k: nat :: k < i ==> !Here(Parse(re), text[k..])
      decreases |text| - i
    {
      b := MatchHere(re, text[i..]);
      if b {
        return;
      }
      if i == |text| {
        break;
      }
      i := i + 1;
    }
  }

  /** matchhere: grep.c:84-95. */
  method MatchHere(re: string, text: string) returns (b: bool)
    ensures b <==> Here(Parse(re), text)
    decreases 2 * |re|
  {
    if re == "" {
      HereNone(text);
      return true;
    }
    if |re| > 1 && re[1] == '*' {
      b := MatchStar(re[0], re[2..], text);
      return;
    }
    if re[0] == '$' && |re| == 1 {
      AtEnd(text);
      return text == "";
    }
    HereFirst(One(re[0]), Parse(re[1..]), text);
    if text != "" && (re[0] == '.' || re[0] == text[0]) {
      b := MatchHere(re[1..], text[1..]);
      if b {
        assert Takes(One(re[0]), text, 1);
      }
      return;
    }
    return false;
  }

  lemma AtEnd(text: string)
    ensures Here([End], text) <==> text == ""
  {
    HereFirst(End, [], text);
    HereNone(text);
    assert [End] + [] == [End];
    if text == "" {
      assert Takes(End, text, 0) && text[0..] == text;
    }
  }

  /** matchstar: grep.c:98-106. */
  method MatchStar(c: char, re: string, text: string) returns (b: bool)
    ensures b <==> Here([Star(c)] + Parse(re), text)
    decreases 2 * |re| + 1
  {
    HereFirst(Star(c), Parse(re), text);
    var i := 0;
    while true
      invariant 0 <= i <= |text|
      invariant forall k :: 0 <= k < i ==> Accepts(c, text[k])
      invariant forall k: nat :: k < i ==> !Here(Parse(re), text[k..])
      decreases |text| - i
    {
      b := MatchHere(re, text[i..]);
      if b {
        assert Takes(Star(c), text, i);
        return;
      }
      if i == |text| || !(text[i] == c || c == '.') {
        break;
      }
      i := i + 1;
    }
    forall n: nat | Takes(Star(c), text, n) && n <= |text| ensures !Here(Parse(re), text[n..]) {
      assert n > i ==> Accepts(c, text[i]);
    }
  }
}
