/** Every command tree can be typed: printed fully parenthesised, it is parsed back to
    itself. */
module ShellRoundTrip {
  import opened ShellSpec
  import opened ShellGrammar
  import opened ShellReads

  // ----- Printing

  /** The words, with a space between any two. */
  function PrintArgs(ws: seq<Text>): (p: Text) {
    if ws == [] then [] else if |ws| == 1 then ws[0] else ws[0] + [' '] + PrintArgs(ws[1..])
  }

  function Print(t: Tree): (p: Text) {
    match t
    case Exec(argv) => PrintArgs(argv)
    case Redir(c, f, m) => ['('] + Print(c) + [')', if m.In? then '<' else '>'] + f
    case Pipe(l, r) => ['('] + Print(l) + [')', '|', '('] + Print(r) + [')']
    case List(l, r) => ['('] + Print(l) + [')', ';', '('] + Print(r) + [')']
    case Back(c) => ['('] + Print(c) + [')', '&']
  }

  /** All words are words. */
  ghost predicate GoodWords(t: Tree) {
    match t
    case Exec(argv) => forall k :: 0 <= k < |argv| ==> GoodWord(argv[k])
    case Redir(c, f, _) => GoodWords(c) && GoodWord(f)
    case Pipe(l, r) => GoodWords(l) && GoodWords(r)
    case List(l, r) => GoodWords(l) && GoodWords(r)
    case Back(c) => GoodWords(c)
  }

  // ----- The print as a line

  function Words(ws: seq<Text>): (items: seq<Item>) {
    if ws == [] then [] else [Word(ws[0], if |ws| > 1 then [' '] else [])] + Words(ws[1..])
  }

  function InParens(t: Tree): (c: Command)
    decreases t, 1
  {
    Block([], Full(t), [], [])
  }

  /** The line that prints t. */
  function Full(t: Tree): (l: Line)
    decreases t, 0
  {
    match t
    case Exec(argv) => Last(One(Simple(Words(argv))), [])
    case Redir(c, f, m) => Last(One(Block([], Full(c), [], [File(if m.In? then Less else More, [], f, [])])), [])
    case Pipe(l, r) => Last(Bar(InParens(l), [], One(InParens(r))), [])
    case List(l, r) => Semi(One(InParens(l)), [], [], Last(One(InParens(r)), []))
    case Back(c) => Last(One(InParens(c)), [[]])
  }

  lemma {:induction false} WordsPrint(ws: seq<Text>)
    requires forall k :: 0 <= k < |ws| ==> GoodWord(ws[k])
    ensures ItemsText(Words(ws)) == PrintArgs(ws) && ItemsOk(Words(ws))
    ensures |Words(ws)| == |ws| && forall k :: 0 <= k < |ws| ==> Words(ws)[k].Word? && Words(ws)[k].w == ws[k]
  {
    if ws != [] {
      WordsPrint(ws[1..]);
      assert Words(ws)[1..] == Words(ws[1..]);
    }
  }

  lemma {:induction false} WordsMean(t: Tree, items: seq<Item>)
    requires forall k :: 0 <= k < |items| ==> items[k].Word?
    ensures |Args(items)| == |items| && forall k :: 0 <= k < |items| ==> Args(items)[k] == items[k].w
    ensures Wrapped(t, items) == t
  {
    if items != [] {
      WordsMean(t, items[..|items| - 1]);
    }
  }

  /** l is typed as p and means t. */
  ghost predicate Prints(l: Line, t: Tree, p: Text) {
    LineText(l) == p && LineOk(l) && LineMeans(l) == t
  }

  ghost predicate CommandPrints(c: Command, t: Tree, p: Text) {
    CommandText(c) == p && CommandOk(c) && CommandMeans(c) == t
  }

  lemma {:induction false} ParensPrint(l: Line, t: Tree, p: Text)
    requires Prints(l, t, p)
    ensures CommandPrints(Block([], l, [], []), t, ['('] + p + [')'])
  {
    assert [')'] + [] + ItemsText([]) == [')'];
  }

  lemma {:induction false} RedirPrints(l: Line, t: Tree, p: Text, f: Text, m: Mode)
    requires Prints(l, t, p) && GoodWord(f)
    ensures CommandPrints(Block([], l, [], [File(if m.In? then Less else More, [], f, [])]), Redir(t, f, m),
                          ['('] + p + [')', if m.In? then '<' else '>'] + f)
  {
    var x := File(if m.In? then Less else More, [], f, []);
    assert [x][1..] == [] && [x][..0] == [];
    assert ItemText(x) == [if m.In? then '<' else '>'] + f;
    assert ItemsOk([x]) by {
      assert ItemOk(x) && ItemsOk([x][1..]);
    }
    assert ItemsText([x]) == ItemText(x);
    assert Wrapped(t, [x]) == Redir(Wrapped(t, []), f, m);
  }

  lemma {:induction false} OnePrints(c: Command, t: Tree, p: Text)
    requires CommandPrints(c, t, p)
    ensures Prints(Last(One(c), []), t, p) && PipelineText(One(c)) == p
  {
    assert PipelineText(One(c)) + BacksText([]) == p;
    assert InBack(t, 0) == t;
  }

  lemma {:induction false} BackPrints(c: Command, t: Tree, p: Text)
    requires CommandPrints(c, t, p)
    ensures Prints(Last(One(c), [[]]), Back(t), p + ['&'])
  {
    var backs: seq<Text> := [[]];
    assert backs[1..] == [];
    assert BacksText(backs) == ['&'] + [] + BacksText([]);
    assert InBack(t, 1) == Back(InBack(t, 0));
  }

  lemma {:induction false} PipePrints(c: Command, t: Tree, p: Text, d: Command, u: Tree, q: Text)
    requires CommandPrints(c, t, p) && CommandPrints(d, u, q)
    ensures Prints(Last(Bar(c, [], One(d)), []), Pipe(t, u), p + ['|'] + q)
  {
    OnePrints(d, u, q);
    assert PipelineText(Bar(c, [], One(d))) == p + ['|'] + q;
    assert InBack(Pipe(t, u), 0) == Pipe(t, u);
  }

  lemma {:induction false} ListPrints(c: Command, t: Tree, p: Text, l: Line, u: Tree, q: Text)
    requires CommandPrints(c, t, p) && Prints(l, u, q)
    ensures Prints(Semi(One(c), [], [], l), List(t, u), p + [';'] + q)
  {
    assert LineText(Semi(One(c), [], [], l)) == p + ([] + ([';'] + [] + q));
    assert InBack(t, 0) == t;
  }

  lemma {:induction false} ExecPrints(argv: seq<Text>)
    requires forall k :: 0 <= k < |argv| ==> GoodWord(argv[k])
    ensures CommandPrints(Simple(Words(argv)), Exec(argv), PrintArgs(argv))
  {
    WordsPrint(argv);
    WordsMean(Exec(argv), Words(argv));
    assert Args(Words(argv)) == argv;
  }

  /** So every tree of words is what some line means. */
  lemma {:induction false} FullPrints(t: Tree)
    requires GoodWords(t)
    ensures Prints(Full(t), t, Print(t))
    decreases t, 1
  {
    match t
    case Exec(argv) =>
      ExecPrints(argv);
      OnePrints(Simple(Words(argv)), t, PrintArgs(argv));
    case Redir(c, f, m) =>
      FullPrints(c);
      RedirPrints(Full(c), c, Print(c), f, m);
      OnePrints(Full(t).pipe.cmd, t, Print(t));
    case Pipe(l, r) =>
      SidesPrint(t);
      PipePrints(InParens(l), l, ['('] + Print(l) + [')'], InParens(r), r, ['('] + Print(r) + [')']);
      assert Print(t) == ['('] + Print(l) + [')'] + ['|'] + (['('] + Print(r) + [')']);
    case List(l, r) =>
      SidesPrint(t);
      OnePrints(InParens(r), r, ['('] + Print(r) + [')']);
      ListPrints(InParens(l), l, ['('] + Print(l) + [')'], Last(One(InParens(r)), []), r, ['('] + Print(r) + [')']);
      assert Print(t) == ['('] + Print(l) + [')'] + [';'] + (['('] + Print(r) + [')']);
    case Back(c) =>
      FullPrints(c);
      ParensPrint(Full(c), c, Print(c));
      BackPrints(InParens(c), c, ['('] + Print(c) + [')']);
      assert Print(t) == ['('] + Print(c) + [')'] + ['&'];
  }

  lemma {:induction false} SidesPrint(t: Tree)
    requires (t.Pipe? || t.List?) && GoodWords(t)
    ensures CommandPrints(InParens(t.left), t.left, ['('] + Print(t.left) + [')'])
    ensures CommandPrints(InParens(t.right), t.right, ['('] + Print(t.right) + [')'])
    decreases t, 0
  {
    FullPrints(t.left);
    FullPrints(t.right);
    ParensPrint(Full(t.left), t.left, Print(t.left));
    ParensPrint(Full(t.right), t.right, Print(t.right));
  }

  /** Round trip: parsecmd gives back every tree of words printed fully
      parenthesised, unless a command is too long; then it says so. */
  lemma {:induction false} RoundTrip(t: Tree)
    requires GoodWords(t)
    ensures var r := ParseCmd(Print(t));
            if ShortCommands(t) then r.Ok? && Spells(Print(t), r.cmd, t) else r == Panic(TooManyArgs)
  {
    FullPrints(t);
    TypedIsRead([], Full(t));
    assert [] + Print(t) == Print(t);
  }

  // ----- `>>` does not append

  /** The lines are the same from position i on. */
  ghost predicate Agree(s: Text, s': Text, i: nat) {
    |s'| == |s| && forall j :: i <= j < |s| ==> s'[j] == s[j]
  }

  lemma {:induction false} SkipAgrees(s: Text, s': Text, i: nat)
    requires i <= |s| && Agree(s, s', i)
    ensures Skip(s', i) == Skip(s, i)
    decreases |s| - i
  {
    if i < |s| && IsSpace(s[i]) {
      SkipAgrees(s, s', i + 1);
    }
  }

  lemma {:induction false} WordEndAgrees(s: Text, s': Text, i: nat)
    requires i <= |s| && Agree(s, s', i)
    ensures WordEnd(s', i) == WordEnd(s, i)
    decreases |s| - i
  {
    if i < |s| && !IsSpace(s[i]) && !IsSymbol(s[i]) {
      WordEndAgrees(s, s', i + 1);
    }
  }

  lemma {:induction false} TokenAgrees(s: Text, s': Text, i: nat)
    requires i <= |s| && Agree(s, s', i)
    ensures GetToken(s', i) == GetToken(s, i)
  {
    SkipAgrees(s, s', i);
    var q := Skip(s, i);
    WordEndAgrees(s, s', q);
    SkipAgrees(s, s', TokenEnd(s, q));
  }

  /** What parseredirs does depends on the rest of the line only. */
  lemma {:induction false} RedirsAgree(s: Text, s': Text, cmd: Cmd<Span>, i: nat)
    requires i <= |s| && Agree(s, s', i)
    ensures ParseRedirs(s', cmd, i) == ParseRedirs(s, cmd, i)
    decreases |s| - i
  {
    SkipAgrees(s, s', i);
    var p := Skip(s, i);
    if IsRedir(At(s, p)) {
      TokenAgrees(s, s', p);
      var t := GetToken(s, p);
      FileAgrees(s, s', cmd, t);
    }
  }

  lemma {:induction false} FileAgrees(s: Text, s': Text, cmd: Cmd<Span>, t: Token)
    requires t.q < t.next <= |s| && Agree(s, s', t.next)
    ensures RedirTo(s', cmd, t) == RedirTo(s, cmd, t)
    decreases |s| - t.next, 1
  {
    TokenAgrees(s, s', t.next);
    var f := GetToken(s, t.next);
    if f.kind == 'a' {
      RedirsAgree(s, s', Redir(cmd, Span(f.q, f.eq), if t.kind == '<' then In else Out), f.next);
    }
  }

  /** `>>` makes the same node as `>`, whatever follows: with a blank in place of the
      second character parseredirs does just the same. */
  lemma {:induction false} AppendIsCreate(s: Text, cmd: Cmd<Span>, p: nat)
    requires p + 1 < |s| && s[p] == '>' && s[p + 1] == '>'
    ensures ParseRedirs(s[p + 1 := ' '], cmd, p) == ParseRedirs(s, cmd, p)
  {
    var s' := s[p + 1 := ' '];
    SkipAgrees(s, s', p + 2);
    var t, t' := GetToken(s, p), GetToken(s', p);
    assert t == Token('+', p, p + 2, Skip(s, p + 2));
    assert t' == Token('>', p, p + 1, Skip(s, p + 2));
    FileAgrees(s, s', cmd, t);
    assert RedirTo(s', cmd, t') == RedirTo(s', cmd, t);
  }
}
