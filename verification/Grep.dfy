/** The matcher of grep.c against the language of its patterns.  Pattern and text
    are the characters before the terminating NUL. */
module Grep {

  // ----- Patterns and their language

  /** A pattern after its '^': characters ('.' stands for any), starred characters,
      and an end that is anchored or not. */
  datatype Pattern = Open | Anchored | One(c: char, rest: Pattern) | Star(c: char, rest: Pattern)

  /** A whole one: with a '^' in front or not. */
  datatype Regex = Regex(start: bool, p: Pattern)

  predicate Fits(c: char, x: char) {
    c == '.' || c == x
  }

  /** t[j..e) is in the language of p; an anchored end matches only at the end of t. */
  ghost predicate In(p: Pattern, t: seq<char>, j: nat, e: nat)
    requires e <= |t|
    decreases p
  {
    match p
    case Open => j == e
    case Anchored => j == e == |t|
    case One(c, rest) => j < e && Fits(c, t[j]) && In(rest, t, j + 1, e)
    case Star(c, rest) => exists m: nat :: Run(c, t, j, m, e) && In(rest, t, m, e)
  }

  /** t[j..m) consists of characters that c stands for. */
  ghost predicate Run(c: char, t: seq<char>, j: nat, m: nat, e: nat)
    requires e <= |t|
  {
    j <= m <= e && forall k :: j <= k < m ==> Fits(c, t[k])
  }

  /** The pattern that re[i..] denotes.  A star binds before a '$' does: "$*" is a
      starred dollar sign. */
  function Denotes(re: seq<char>, i: nat): (p: Pattern)
    requires i <= |re|
    decreases |re| - i
  {
    if i == |re| then Open
    else if i + 1 < |re| && re[i + 1] == '*' then Star(re[i], Denotes(re, i + 2))
    else if re[i] == '$' && i + 1 == |re| then Anchored
    else One(re[i], Denotes(re, i + 1))
  }

  /** Some prefix of t[j..] is in the language of p. */
  ghost predicate StartsWith(p: Pattern, t: seq<char>, j: nat) {
    exists e: nat :: j <= e <= |t| && In(p, t, j, e)
  }

  /** What re stands for. */
  function Meaning(re: seq<char>): (r: Regex) {
    if |re| > 0 && re[0] == '^' then Regex(true, Denotes(re, 1)) else Regex(false, Denotes(re, 0))
  }

  /** Some substring of t is in the language of r, at the start of t if r is anchored there. */
  ghost predicate Contains(r: Regex, t: seq<char>) {
    exists j: nat :: j <= |t| && (r.start ==> j == 0) && StartsWith(r.p, t, j)
  }

  // ----- Patterns as they are written

  function Print(p: Pattern): (s: seq<char>) {
    match p
    case Open => []
    case Anchored => ['$']
    case One(c, rest) => [c] + Print(rest)
    case Star(c, rest) => [c, '*'] + Print(rest)
  }

  function Written(r: Regex): (s: seq<char>) {
    (if r.start then ['^'] else []) + Print(r.p)
  }

  /** p begins with the character c, plain or starred. */
  predicate Begins(p: Pattern, c: char) {
    (p.One? || p.Star?) && p.c == c
  }

  /** p can be written: no plain character stands before a star sign, and no plain dollar
      sign at the end. */
  predicate Writable(p: Pattern) {
    match p
    case Open => true
    case Anchored => true
    case One(c, rest) => Writable(rest) && !Begins(rest, '*') && !(c == '$' && rest.Open?)
    case Star(_, rest) => Writable(rest)
  }

  /** Every text is the print of what it denotes. */
  lemma {:induction false} DenotesAll(re: seq<char>, i: nat)
    requires i <= |re|
    ensures Print(Denotes(re, i)) == re[i..] && Writable(Denotes(re, i))
    decreases |re| - i
  {
    if i < |re| {
      if i + 1 < |re| && re[i + 1] == '*' {
        DenotesAll(re, i + 2);
        assert re[i..] == [re[i], '*'] + re[i + 2..];
      } else {
        DenotesAll(re, i + 1);
        assert re[i..] == [re[i]] + re[i + 1..];
        assert i + 1 < |re| ==> re[i + 1..][0] == re[i + 1];
      }
    }
  }

  lemma {:induction false} DenotesFrom(s: seq<char>, re: seq<char>, i: nat, k: nat)
    requires i <= |re| && s == re[i..] && k <= |s|
    ensures Denotes(s, k) == Denotes(re, i + k)
    decreases |s| - k
  {
    if k < |s| {
      DenotesFrom(s, re, i, k + 1);
      if k + 1 < |s| {
        DenotesFrom(s, re, i, k + 2);
      }
    }
  }

  lemma {:induction false} PrintBegins(p: Pattern)
    ensures Print(p) != [] <==> !p.Open?
    ensures forall c: char :: c != '$' ==> (Begins(p, c) <==> Print(p) != [] && Print(p)[0] == c)
  {
  }

  /** A pattern that can be written is what its print denotes. */
  lemma {:induction false} PrintDenotes(p: Pattern)
    requires Writable(p)
    ensures Denotes(Print(p), 0) == p
  {
    var re := Print(p);
    match p
    case Open =>
    case Anchored =>
    case One(c, rest) =>
      PrintDenotes(rest);
      PrintBegins(rest);
      DenotesFrom(Print(rest), re, 1, 0);
      assert re[1..] == Print(rest);
    case Star(c, rest) =>
      PrintDenotes(rest);
      DenotesFrom(Print(rest), re, 2, 0);
      assert re[2..] == Print(rest);
  }

  /** Reading and writing patterns are inverse: every text is the writing of its meaning,
      and a pattern is the meaning of its writing exactly if it can be written. */
  lemma {:induction false} ReadsBack(re: seq<char>, r: Regex)
    ensures Written(Meaning(re)) == re
    ensures Meaning(Written(r)) == r <==> Writable(r.p) && (r.start || !Begins(r.p, '^'))
  {
    DenotesAll(re, 0);
    if |re| > 0 {
      DenotesAll(re, 1);
    }
    var s := Written(r);
    PrintBegins(r.p);
    if r.start {
      assert s[1..] == Print(r.p);
      DenotesFrom(Print(r.p), s, 1, 0);
      DenotesAll(s, 1);
    } else {
      assert s == Print(r.p);
      DenotesAll(s, 0);
    }
    if Writable(r.p) {
      PrintDenotes(r.p);
    }
  }

  // ----- Patterns everybody knows

  /** No character of re is special. */
  predicate Plain(re: seq<char>) {
    forall k :: 0 <= k < |re| ==> re[k] != '.' && re[k] != '*' && re[k] != '$' && re[k] != '^'
  }

  /** re stands in t at j. */
  predicate StandsAt(re: seq<char>, t: seq<char>, j: nat) {
    j + |re| <= |t| && t[j..j + |re|] == re
  }

  lemma {:induction false} PlainIn(re: seq<char>, i: nat, t: seq<char>, j: nat, e: nat)
    requires Plain(re) && i <= |re| && e <= |t|
    ensures In(Denotes(re, i), t, j, e) <==> e == j + (|re| - i) && t[j..e] == re[i..]
    decreases |re| - i
  {
    if i < |re| {
      PlainIn(re, i + 1, t, j + 1, e);
      if j < e {
        assert t[j..e] == [t[j]] + t[j + 1..e];
      }
      assert re[i..] == [re[i]] + re[i + 1..];
    }
  }

  /** A pattern without special characters is found where it stands in the text. */
  lemma {:induction false} PlainIsSubstring(re: seq<char>, t: seq<char>)
    requires Plain(re)
    ensures Contains(Meaning(re), t) <==> exists j: nat :: StandsAt(re, t, j)
  {
    assert Meaning(re) == Regex(false, Denotes(re, 0));
    if Contains(Meaning(re), t) {
      var j: nat :| j <= |t| && StartsWith(Denotes(re, 0), t, j);
      var e: nat :| j <= e <= |t| && In(Denotes(re, 0), t, j, e);
      PlainIn(re, 0, t, j, e);
      assert StandsAt(re, t, j);
    }
    if j: nat :| StandsAt(re, t, j) {
      PlainIn(re, 0, t, j, j + |re|);
      assert In(Denotes(re, 0), t, j, j + |re|);
      assert StartsWith(Denotes(re, 0), t, j);
    }
  }

  /** Between anchors a run of dots asks for a length, and ".*" for nothing. */
  lemma {:induction false} AnyText(t: seq<char>)
    ensures Contains(Meaning("^.*$"), t)
    ensures Contains(Meaning("^.$"), t) <==> |t| == 1
    ensures Contains(Meaning("^$"), t) <==> t == []
  {
    var all, one := Star('.', Anchored), One('.', Anchored);
    assert Denotes("^.*$", 3) == Anchored && Meaning("^.*$") == Regex(true, all);
    assert Denotes("^.$", 2) == Anchored && Meaning("^.$") == Regex(true, one);
    assert Meaning("^$") == Regex(true, Anchored);
    assert Run('.', t, 0, |t|, |t|) && In(all, t, 0, |t|);
    assert StartsWith(all, t, 0);
    if |t| == 1 {
      assert In(Anchored, t, 1, 1) && In(one, t, 0, 1);
      assert StartsWith(one, t, 0);
    }
    if t == [] {
      assert In(Anchored, t, 0, 0);
      assert StartsWith(Anchored, t, 0);
    }
  }

  // ----- Matching

  lemma {:induction false} StarSplits(c: char, p: Pattern, t: seq<char>, j: nat, e: nat) returns (m: nat)
    requires e <= |t| && In(Star(c, p), t, j, e)
    ensures Run(c, t, j, m, e) && In(p, t, m, e)
  {
    m :| Run(c, t, j, m, e) && In(p, t, m, e);
  }

  /** One step of the star: none of it, or one more character. */
  lemma {:induction false} StarStep(c: char, p: Pattern, t: seq<char>, j: nat)
    requires j <= |t|
    ensures StartsWith(Star(c, p), t, j) <==>
            StartsWith(p, t, j) || (j < |t| && Fits(c, t[j]) && StartsWith(Star(c, p), t, j + 1))
  {
    if StartsWith(Star(c, p), t, j) {
      var e: nat :| j <= e <= |t| && In(Star(c, p), t, j, e);
      var m := StarSplits(c, p, t, j, e);
      if m > j {
        assert Run(c, t, j + 1, m, e);
        assert In(Star(c, p), t, j + 1, e);
      }
    }
    if StartsWith(p, t, j) {
      var e: nat :| j <= e <= |t| && In(p, t, j, e);
      assert Run(c, t, j, j, e);
      assert In(Star(c, p), t, j, e);
    }
    if j < |t| && Fits(c, t[j]) && StartsWith(Star(c, p), t, j + 1) {
      var e: nat :| j + 1 <= e <= |t| && In(Star(c, p), t, j + 1, e);
      var m := StarSplits(c, p, t, j + 1, e);
      assert Run(c, t, j, m, e);
      assert In(Star(c, p), t, j, e);
    }
  }

  lemma {:induction false} OneStep(c: char, p: Pattern, t: seq<char>, j: nat)
    requires j <= |t|
    ensures StartsWith(One(c, p), t, j) <==> j < |t| && Fits(c, t[j]) && StartsWith(p, t, j + 1)
  {
    if StartsWith(One(c, p), t, j) {
      var e: nat :| j <= e <= |t| && In(One(c, p), t, j, e);
      assert In(p, t, j + 1, e);
    }
    if j < |t| && Fits(c, t[j]) && StartsWith(p, t, j + 1) {
      var e: nat :| j + 1 <= e <= |t| && In(p, t, j + 1, e);
      assert In(One(c, p), t, j, e);
    }
  }

  lemma {:induction false} EndStep(t: seq<char>, j: nat)
    requires j <= |t|
    ensures StartsWith(Open, t, j)
    ensures StartsWith(Anchored, t, j) <==> j == |t|
  {
    assert In(Open, t, j, j);
    if j == |t| {
      assert In(Anchored, t, j, j);
    }
  }

  /** matchhere, on re[i..] and t[j..]. */
  method MatchHere(re: seq<char>, i: nat, t: seq<char>, j: nat) returns (found: bool)
    requires i <= |re| && j <= |t|
    ensures found <==> StartsWith(Denotes(re, i), t, j)
    decreases |re| - i, 0
  {
    EndStep(t, j);
    if i == |re| {
      return true;
    }
    if i + 1 < |re| && re[i + 1] == '*' {
      found := MatchStar(re[i], re, i + 2, t, j);
      return;
    }
    if re[i] == '$' && i + 1 == |re| {
      return j == |t|;
    }
    OneStep(re[i], Denotes(re, i + 1), t, j);
    if j < |t| && (re[i] == '.' || re[i] == t[j]) {
      found := MatchHere(re, i + 1, t, j + 1);
      return;
    }
    return false;
  }

  /** matchstar: c* and then re[i..], on t[j..]. */
  method MatchStar(c: char, re: seq<char>, i: nat, t: seq<char>, j: nat) returns (found: bool)
    requires i <= |re| && j <= |t|
    ensures found <==> StartsWith(Star(c, Denotes(re, i)), t, j)
    decreases |re| - i, 1
  {
    ghost var p := Denotes(re, i);
    var k, more := j, true;
    while more
      invariant j <= k <= |t|
      invariant more ==> (StartsWith(Star(c, p), t, j) <==> StartsWith(Star(c, p), t, k))
      invariant !more ==> !StartsWith(Star(c, p), t, j)
      decreases more, |t| - k
    {
      StarStep(c, p, t, k);
      var here := MatchHere(re, i, t, k);
      if here {
        return true;
      }
      more := k < |t| && (t[k] == c || c == '.');
      if more {
        k := k + 1;
      }
    }
    return false;
  }

  /** match finds just the texts that contain a word of the pattern's language. */
  method Match(re: seq<char>, t: seq<char>) returns (found: bool)
    ensures found <==> Contains(Meaning(re), t)
  {
    if |re| > 0 && re[0] == '^' {
      found := MatchHere(re, 1, t, 0);
      return;
    }
    var k := 0;
    while k <= |t|
      invariant 0 <= k <= |t| + 1
      invariant forall j: nat :: j < k ==> !StartsWith(Denotes(re, 0), t, j)
    {
      found := MatchHere(re, 0, t, k);
      if found {
        return;
      }
      k := k + 1;
    }
    return false;
  }
}
