/** After nulterminate, the strings of a parsed command are its tokens. */
module ShellStrings {
  import opened ShellSpec

  ghost predicate NoNul(s: seq<char>) {
    forall k :: 0 <= k < |s| ==> s[k] != NUL
  }

  /** The span is a maximal run of word characters. */
  ghost predicate WordSpan(s: seq<char>, sp: Span) {
    && sp.q < sp.eq <= |s| && (forall k :: sp.q <= k < sp.eq ==> IsWord(s[k]))
    && !IsWord(At(s, sp.eq))
  }

  /** All spans of the tree are. */
  ghost predicate AllWords(s: seq<char>, c: Cmd<Span>) {
    match c
    case Exec(argv) => forall k :: 0 <= k < |argv| ==> WordSpan(s, argv[k])
    case Redir(d, f, _) => AllWords(s, d) && WordSpan(s, f)
    case Pipe(l, r) => AllWords(s, l) && AllWords(s, r)
    case List(l, r) => AllWords(s, l) && AllWords(s, r)
    case Back(d) => AllWords(s, d)
  }

  // ----- What the parser returns

  lemma {:induction false} WordEndStops(s: seq<char>, i: nat)
    requires i <= |s| && NoNul(s)
    ensures !IsWord(At(s, WordEnd(s, i))) && forall k :: i <= k < WordEnd(s, i) ==> IsWord(s[k])
    decreases |s| - i
  {
    if i < |s| && !IsSpace(s[i]) && !IsSymbol(s[i]) {
      WordEndStops(s, i + 1);
    }
  }

  lemma {:induction false} TokenIsWord(s: seq<char>, i: nat)
    requires i <= |s| && NoNul(s) && GetToken(s, i).kind == 'a'
    ensures WordSpan(s, Span(GetToken(s, i).q, GetToken(s, i).eq))
  {
    WordEndStops(s, Skip(s, i));
  }

  lemma {:induction false} RedirsAreWords(s: seq<char>, c: Cmd<Span>, i: nat)
    requires i <= |s| && NoNul(s) && AllWords(s, c) && ParseRedirs(s, c, i).Ok?
    ensures AllWords(s, ParseRedirs(s, c, i).cmd)
    decreases |s| - i
  {
    var j := Skip(s, i);
    if IsRedir(At(s, j)) {
      var t := GetToken(s, j);
      var f := GetToken(s, t.next);
      assert ParseRedirs(s, c, i) == RedirTo(s, c, t);
      TokenIsWord(s, t.next);
      RedirsAreWords(s, Redir(c, Span(f.q, f.eq), if t.kind == '<' then In else Out), f.next);
    }
  }

  lemma {:induction false} ArgIsWord(s: seq<char>, c: Cmd<Span>, w: Span)
    requires AllWords(s, c) && WordSpan(s, w)
    ensures AllWords(s, AddArg(c, w))
  {
    match c
    case Redir(d, _, _) => ArgIsWord(s, d, w);
    case _ =>
  }

  lemma {:induction false} ArgsAreWords(s: seq<char>, c: Cmd<Span>, argc: nat, i: nat)
    requires i <= |s| && NoNul(s) && AllWords(s, c) && ParseArgs(s, c, argc, i).Ok?
    ensures AllWords(s, ParseArgs(s, c, argc, i).cmd)
    decreases |s| - i
  {
    var j := Skip(s, i);
    var t := GetToken(s, j);
    if !EndsExec(At(s, j)) && t.kind != NUL {
      assert ParseArgs(s, c, argc, i) == TakeArg(s, c, argc, t);
      TokenIsWord(s, j);
      ArgIsWord(s, c, Span(t.q, t.eq));
      var r := ParseRedirs(s, AddArg(c, Span(t.q, t.eq)), t.next);
      RedirsAreWords(s, AddArg(c, Span(t.q, t.eq)), t.next);
      ArgsAreWords(s, r.cmd, argc + 1, r.pos);
    }
  }

  lemma {:induction false} SimpleIsWords(s: seq<char>, i: nat)
    requires i <= |s| && NoNul(s) && ParseSimple(s, i).Ok?
    ensures AllWords(s, ParseSimple(s, i).cmd)
  {
    var r := ParseRedirs(s, Exec([]), i);
    RedirsAreWords(s, Exec([]), i);
    ArgsAreWords(s, r.cmd, 0, r.pos);
  }

  lemma {:induction false} BacksAreWords(s: seq<char>, c: Cmd<Span>, i: nat)
    requires i <= |s| && AllWords(s, c)
    ensures AllWords(s, ParseBacks(s, c, i).cmd)
    decreases |s| - i
  {
    var j := Skip(s, i);
    if At(s, j) == '&' {
      BacksAreWords(s, Back(c), GetToken(s, j).next);
    }
  }

  lemma {:induction false} ExecIsWords(s: seq<char>, i: nat)
    requires i <= |s| && NoNul(s) && ParseExec(s, i).Ok?
    ensures AllWords(s, ParseExec(s, i).cmd)
    decreases |s| - i, 1
  {
    var i := Skip(s, i);
    if At(s, i) == '(' {
      var n := GetToken(s, i).next;
      var r := ParseLine(s, n);
      assert ParseBlock(s, i) == BlockTail(s, i, r);
      LineIsWords(s, n);
      var j := Skip(s, r.pos);
      RedirsAreWords(s, r.cmd, GetToken(s, j).next);
    } else {
      SimpleIsWords(s, i);
    }
  }

  lemma {:induction false} PipeIsWords(s: seq<char>, i: nat)
    requires i <= |s| && NoNul(s) && ParsePipe(s, i).Ok?
    ensures AllWords(s, ParsePipe(s, i).cmd)
    decreases |s| - i, 2
  {
    var r := ParseExec(s, i);
    assert ParsePipe(s, i) == PipeTail(s, i, r);
    ExecIsWords(s, i);
    var j := Skip(s, r.pos);
    if At(s, j) == '|' {
      PipeIsWords(s, GetToken(s, j).next);
    }
  }

  /** Every span a parse returns is a word of the line. */
  lemma {:induction false} LineIsWords(s: seq<char>, i: nat)
    requires i <= |s| && NoNul(s) && ParseLine(s, i).Ok?
    ensures AllWords(s, ParseLine(s, i).cmd)
    decreases |s| - i, 3
  {
    var r := ParsePipe(s, i);
    assert ParseLine(s, i) == LineTail(s, i, r);
    PipeIsWords(s, i);
    BacksAreWords(s, r.cmd, r.pos);
    var b := ParseBacks(s, r.cmd, r.pos);
    if At(s, b.pos) == ';' {
      LineIsWords(s, GetToken(s, b.pos).next);
    }
  }

  // ----- nulterminate, on the line and the NUL after it

  function PutNul(b: seq<char>, i: nat): (r: seq<char>)
    ensures |r| == |b|
  {
    if i < |b| then b[i := NUL] else b
  }

  /** The buffer after the first k strings of argv are ended. */
  function EndArgs(b: seq<char>, argv: seq<Span>, k: nat): (r: seq<char>)
    requires k <= |argv|
    ensures |r| == |b|
  {
    if k == 0 then b else PutNul(EndArgs(b, argv, k - 1), argv[k - 1].eq)
  }

  /** The buffer after nulterminate(c). */
  function Ended(b: seq<char>, c: Cmd<Span>): (r: seq<char>)
    ensures |r| == |b|
    decreases c
  {
    match c
    case Exec(argv) => EndArgs(b, argv, |argv|)
    case Redir(d, f, _) => PutNul(Ended(b, d), f.eq)
    case Pipe(l, r) => Ended(Ended(b, l), r)
    case List(l, r) => Ended(Ended(b, l), r)
    case Back(d) => Ended(b, d)
  }

  /** The C string that starts at sp.q is the word of the span. */
  ghost predicate StringIs(b: seq<char>, s: seq<char>, sp: Span) {
    && sp.q < sp.eq <= |s| && |b| == |s| + 1
    && (forall k :: sp.q <= k < sp.eq ==> b[k] == s[k] && b[k] != NUL)
    && b[sp.eq] == NUL
  }

  ghost predicate AllStrings(b: seq<char>, s: seq<char>, c: Cmd<Span>) {
    match c
    case Exec(argv) => forall k :: 0 <= k < |argv| ==> StringIs(b, s, argv[k])
    case Redir(d, f, _) => AllStrings(b, s, d) && StringIs(b, s, f)
    case Pipe(l, r) => AllStrings(b, s, l) && AllStrings(b, s, r)
    case List(l, r) => AllStrings(b, s, l) && AllStrings(b, s, r)
    case Back(d) => AllStrings(b, s, d)
  }

  /** From b to b' only characters that are no part of a word became NUL. */
  ghost predicate OnlyEnds(s: seq<char>, b: seq<char>, b': seq<char>) {
    && |b| == |b'| == |s| + 1
    && forall k :: 0 <= k < |b| ==> (b'[k] == b[k] || b'[k] == NUL) && (k < |s| && IsWord(s[k]) ==> b'[k] == b[k])
  }

  lemma {:induction false} PutNulEnds(s: seq<char>, b: seq<char>, sp: Span)
    requires WordSpan(s, sp) && |b| == |s| + 1
    ensures OnlyEnds(s, b, PutNul(b, sp.eq)) && PutNul(b, sp.eq)[sp.eq] == NUL
  {
  }

  lemma {:induction false} EndArgsEnds(s: seq<char>, b: seq<char>, argv: seq<Span>, k: nat)
    requires k <= |argv| && AllWords(s, Exec(argv)) && |b| == |s| + 1
    ensures OnlyEnds(s, b, EndArgs(b, argv, k)) && forall j :: 0 <= j < k ==> EndArgs(b, argv, k)[argv[j].eq] == NUL
  {
    if k != 0 {
      EndArgsEnds(s, b, argv, k - 1);
      assert WordSpan(s, argv[k - 1]);
      PutNulEnds(s, EndArgs(b, argv, k - 1), argv[k - 1]);
    }
  }

  lemma {:induction false} EndedEnds(s: seq<char>, b: seq<char>, c: Cmd<Span>)
    requires AllWords(s, c) && |b| == |s| + 1
    ensures OnlyEnds(s, b, Ended(b, c))
    decreases c
  {
    match c
    case Exec(argv) => EndArgsEnds(s, b, argv, |argv|);
    case Redir(d, f, _) =>
      EndedEnds(s, b, d);
      PutNulEnds(s, Ended(b, d), f);
    case Pipe(l, r) =>
      EndedEnds(s, b, l);
      EndedEnds(s, Ended(b, l), r);
    case List(l, r) =>
      EndedEnds(s, b, l);
      EndedEnds(s, Ended(b, l), r);
    case Back(d) => EndedEnds(s, b, d);
  }

  /** The words of the line are still there. */
  ghost predicate WordsKept(s: seq<char>, b: seq<char>) {
    |b| == |s| + 1 && forall k :: 0 <= k < |s| && IsWord(s[k]) ==> b[k] == s[k]
  }

  lemma {:induction false} StringsStay(s: seq<char>, b: seq<char>, b': seq<char>, c: Cmd<Span>)
    requires AllStrings(b, s, c) && AllWords(s, c) && OnlyEnds(s, b, b')
    ensures AllStrings(b', s, c)
  {
    match c
    case Exec(argv) =>
      forall k | 0 <= k < |argv|
        ensures StringIs(b', s, argv[k])
      {
        assert StringIs(b, s, argv[k]) && WordSpan(s, argv[k]);
      }
    case Redir(d, _, _) => StringsStay(s, b, b', d);
    case Pipe(l, r) =>
      StringsStay(s, b, b', l);
      StringsStay(s, b, b', r);
    case List(l, r) =>
      StringsStay(s, b, b', l);
      StringsStay(s, b, b', r);
    case Back(d) => StringsStay(s, b, b', d);
  }

  lemma {:induction false} BothStrings(s: seq<char>, b: seq<char>, l: Cmd<Span>, r: Cmd<Span>)
    requires AllWords(s, l) && AllWords(s, r) && WordsKept(s, b) && AllStrings(Ended(b, l), s, l)
    requires WordsKept(s, Ended(b, l)) ==> AllStrings(Ended(Ended(b, l), r), s, r)
    ensures AllStrings(Ended(Ended(b, l), r), s, l) && AllStrings(Ended(Ended(b, l), r), s, r)
  {
    EndedEnds(s, b, l);
    EndedEnds(s, Ended(b, l), r);
    StringsStay(s, Ended(b, l), Ended(Ended(b, l), r), l);
  }

  lemma {:induction false} EndedStrings(s: seq<char>, b: seq<char>, c: Cmd<Span>)
    requires AllWords(s, c) && WordsKept(s, b)
    ensures AllStrings(Ended(b, c), s, c)
    decreases c
  {
    EndedEnds(s, b, c);
    match c
    case Exec(argv) =>
      EndArgsEnds(s, b, argv, |argv|);
      forall k | 0 <= k < |argv|
        ensures StringIs(Ended(b, c), s, argv[k])
      {
        assert WordSpan(s, argv[k]);
      }
    case Redir(d, f, _) =>
      EndedStrings(s, b, d);
      EndedEnds(s, b, d);
      PutNulEnds(s, Ended(b, d), f);
      StringsStay(s, Ended(b, d), Ended(b, c), d);
    case Pipe(l, r) =>
      EndedStrings(s, b, l);
      EndedEnds(s, b, l);
      EndedStrings(s, Ended(b, l), r);
      BothStrings(s, b, l, r);
    case List(l, r) =>
      EndedStrings(s, b, l);
      EndedEnds(s, b, l);
      EndedStrings(s, Ended(b, l), r);
      BothStrings(s, b, l, r);
    case Back(d) => EndedStrings(s, b, d);
  }

  /** parsecmd's strings: the argv and file strings of the tree it returns are just
      the tokens of the line, each NUL-terminated, none cut short. */
  lemma {:induction false} ParsedStrings(s: seq<char>)
    requires NoNul(s) && ParseCmd(s).Ok?
    ensures AllWords(s, ParseCmd(s).cmd)
    ensures AllStrings(Ended(s + [NUL], ParseCmd(s).cmd), s, ParseCmd(s).cmd)
  {
    LineIsWords(s, 0);
    EndedStrings(s, s + [NUL], ParseCmd(s).cmd);
  }
}
