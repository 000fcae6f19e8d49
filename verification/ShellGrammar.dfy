/** Lines as they are typed, the trees they mean, and that the parser of sh.c accepts
    just these lines and builds just these trees. */
module ShellGrammar {
  import opened ShellSpec

  type Text = seq<char>
  type Tree = Cmd<Text>

  // ----- The grammar: each token stands with the white space after it

  ghost predicate GoodWord(w: Text) {
    |w| > 0 && forall k :: 0 <= k < |w| ==> IsWord(w[k])
  }

  ghost predicate Blank(g: Text) {
    forall k :: 0 <= k < |g| ==> IsSpace(g[k])
  }

  /** `<`, `>` and `>>`. */
  datatype Sign = Less | More | MoreMore

  datatype Item = Word(w: Text, gap: Text) | File(sign: Sign, mid: Text, w: Text, gap: Text)

  datatype Command = Simple(items: seq<Item>) | Block(open: Text, line: Line, close: Text, redirs: seq<Item>)

  datatype Pipeline = One(cmd: Command) | Bar(cmd: Command, gap: Text, rest: Pipeline)

  /** `backs` are the gaps after the '&'s. */
  datatype Line =
    | Last(pipe: Pipeline, backs: seq<Text>)
    | Semi(pipe: Pipeline, backs: seq<Text>, gap: Text, rest: Line)

  // ----- What is typed

  function SignText(x: Sign): (p: Text) {
    match x
    case Less => ['<']
    case More => ['>']
    case MoreMore => ['>', '>']
  }

  function ItemText(x: Item): (p: Text) {
    match x
    case Word(w, gap) => w + gap
    case File(sign, mid, w, gap) => (SignText(sign) + mid) + (w + gap)
  }

  function ItemsText(items: seq<Item>): (p: Text) {
    if items == [] then [] else ItemText(items[0]) + ItemsText(items[1..])
  }

  function CommandText(c: Command): (p: Text) {
    match c
    case Simple(items) => ItemsText(items)
    case Block(open, line, close, redirs) => (['('] + open) + (LineText(line) + ([')'] + close + ItemsText(redirs)))
  }

  function PipelineText(p: Pipeline): (t: Text) {
    match p
    case One(c) => CommandText(c)
    case Bar(c, gap, rest) => CommandText(c) + (['|'] + gap + PipelineText(rest))
  }

  function BacksText(backs: seq<Text>): (p: Text) {
    if backs == [] then [] else ['&'] + backs[0] + BacksText(backs[1..])
  }

  function LineText(l: Line): (p: Text) {
    match l
    case Last(pipe, backs) => PipelineText(pipe) + BacksText(backs)
    case Semi(pipe, backs, gap, rest) => PipelineText(pipe) + (BacksText(backs) + ([';'] + gap + LineText(rest)))
  }

  // ----- What may be typed

  ghost predicate ItemOk(x: Item) {
    GoodWord(x.w) && Blank(x.gap) && (x.File? ==> Blank(x.mid))
  }

  /** Between two words there is white space. */
  ghost predicate ItemsOk(items: seq<Item>) {
    items != [] ==>
      ItemOk(items[0]) && ItemsOk(items[1..]) && (|items| > 1 ==> items[0].gap != [] || items[1].File?)
  }

  ghost predicate AllFiles(items: seq<Item>) {
    forall k :: 0 <= k < |items| ==> items[k].File?
  }

  ghost predicate CommandOk(c: Command) {
    match c
    case Simple(items) => ItemsOk(items)
    case Block(open, line, close, redirs) =>
      Blank(open) && LineOk(line) && Blank(close) && ItemsOk(redirs) && AllFiles(redirs)
  }

  ghost predicate PipelineOk(p: Pipeline) {
    match p
    case One(c) => CommandOk(c)
    case Bar(c, gap, rest) => CommandOk(c) && Blank(gap) && PipelineOk(rest)
  }

  ghost predicate BacksOk(backs: seq<Text>) {
    forall k :: 0 <= k < |backs| ==> Blank(backs[k])
  }

  ghost predicate LineOk(l: Line) {
    PipelineOk(l.pipe) && BacksOk(l.backs) && (l.Semi? ==> Blank(l.gap) && LineOk(l.rest))
  }

  // ----- What it means

  /** The words of a simple command, without those of its redirections. */
  function Args(items: seq<Item>): (ws: seq<Text>) {
    if items == [] then []
    else
      var n := |items| - 1;
      if items[n].Word? then Args(items[..n]) + [items[n].w] else Args(items[..n])
  }

  function ModeOf(x: Item): (m: Mode)
    requires x.File?
  {
    if x.sign.Less? then In else Out
  }

  /** Its redirections around t, the last outermost. */
  function Wrapped(t: Tree, items: seq<Item>): (r: Tree) {
    if items == [] then t
    else
      var n := |items| - 1;
      if items[n].File? then Redir(Wrapped(t, items[..n]), items[n].w, ModeOf(items[n]))
      else Wrapped(t, items[..n])
  }

  /** What a simple command means. */
  function SimpleMeans(items: seq<Item>): (t: Tree) {
    Wrapped(Exec(Args(items)), items)
  }

  function CommandMeans(c: Command): (t: Tree) {
    match c
    case Simple(items) => SimpleMeans(items)
    case Block(_, line, _, redirs) => Wrapped(LineMeans(line), redirs)
  }

  function PipelineMeans(p: Pipeline): (t: Tree) {
    match p
    case One(c) => CommandMeans(c)
    case Bar(c, _, rest) => Pipe(CommandMeans(c), PipelineMeans(rest))
  }

  function InBack(t: Tree, n: nat): (r: Tree) {
    if n == 0 then t else Back(InBack(t, n - 1))
  }

  function LineMeans(l: Line): (t: Tree) {
    var t := InBack(PipelineMeans(l.pipe), |l.backs|);
    if l.Last? then t else List(t, LineMeans(l.rest))
  }

  /** No command has ten words or more. */
  predicate ShortCommands(t: Tree) {
    match t
    case Exec(argv) => |argv| < 10
    case Redir(c, _, _) => ShortCommands(c)
    case Pipe(l, r) => ShortCommands(l) && ShortCommands(r)
    case List(l, r) => ShortCommands(l) && ShortCommands(r)
    case Back(c) => ShortCommands(c)
  }

  // ----- Trees over a line

  /** p stands in the line at i. */
  ghost predicate Holds(s: Text, i: nat, p: Text) {
    i + |p| <= |s| && forall k :: 0 <= k < |p| ==> s[i + k] == p[k]
  }

  ghost predicate SpanIs(s: Text, sp: Span, w: Text) {
    Holds(s, sp.q, w) && sp.eq == sp.q + |w|
  }

  /** c is t, with each word replaced by where it stands in the line. */
  ghost predicate Spells(s: Text, c: Cmd<Span>, t: Tree) {
    match t
    case Exec(argv) => c.Exec? && |c.argv| == |argv| && forall k :: 0 <= k < |argv| ==> SpanIs(s, c.argv[k], argv[k])
    case Redir(d, f, m) => c.Redir? && Spells(s, c.cmd, d) && SpanIs(s, c.file, f) && c.mode == m
    case Pipe(l, r) => c.Pipe? && Spells(s, c.left, l) && Spells(s, c.right, r)
    case List(l, r) => c.List? && Spells(s, c.left, l) && Spells(s, c.right, r)
    case Back(d) => c.Back? && Spells(s, c.cmd, d)
  }

  /** What reading t up to e gives: the tree, or a complaint about a long command. */
  ghost predicate ReadsAs(s: Text, t: Tree, e: nat, r: Result) {
    if ShortCommands(t) then r.Ok? && r.pos == e && Spells(s, r.cmd, t) else r == Panic(TooManyArgs)
  }

  // ----- Tokens

  /** The characters as the source lists them. */
  lemma {:induction false} Characters(c: char)
    ensures IsSpace(c) <==> c in " \t\r\n\U{000B}"
    ensures IsSymbol(c) <==> c in "<|>&;()"
    ensures IsWord(c) <==> c !in " \t\r\n\U{000B}" && c !in "<|>&;()" && c != '\0'
  {
  }

  lemma {:induction false} HoldsConcat(s: Text, i: nat, a: Text, b: Text)
    ensures Holds(s, i, a + b) <==> Holds(s, i, a) && Holds(s, i + |a|, b)
  {
    if Holds(s, i, a + b) {
      forall k | 0 <= k < |a|
        ensures s[i + k] == a[k]
      {
        assert (a + b)[k] == a[k];
      }
      forall k | 0 <= k < |b|
        ensures s[i + |a| + k] == b[k]
      {
        assert (a + b)[|a| + k] == b[k];
      }
    }
    if Holds(s, i, a) && Holds(s, i + |a|, b) {
      forall k | 0 <= k < |a + b|
        ensures s[i + k] == (a + b)[k]
      {
        if k >= |a| {
          assert s[i + |a| + (k - |a|)] == b[k - |a|];
        }
      }
    }
  }

  lemma {:induction false} HoldsOne(s: Text, i: nat, c: char)
    ensures Holds(s, i, [c]) <==> i < |s| && s[i] == c
  {
    if Holds(s, i, [c]) {
      assert s[i + 0] == [c][0];
    }
  }

  lemma {:induction false} SkipsBlank(s: Text, i: nat, g: Text)
    requires Holds(s, i, g) && Blank(g) && !IsSpace(At(s, i + |g|))
    ensures Skip(s, i) == i + |g|
    decreases |g|
  {
    if g != [] {
      assert s[i + 0] == g[0];
      forall k | 0 <= k < |g[1..]|
        ensures s[i + 1 + k] == g[1..][k]
      {
        assert s[i + (k + 1)] == g[k + 1];
      }
      SkipsBlank(s, i + 1, g[1..]);
    }
  }

  lemma {:induction false} EndsWord(s: Text, i: nat, w: Text)
    requires Holds(s, i, w) && (forall k :: 0 <= k < |w| ==> IsWord(w[k]))
    requires i + |w| == |s| || IsSpace(At(s, i + |w|)) || IsSymbol(At(s, i + |w|))
    ensures WordEnd(s, i) == i + |w|
    decreases |w|
  {
    if w != [] {
      assert s[i + 0] == w[0];
      forall k | 0 <= k < |w[1..]|
        ensures s[i + 1 + k] == w[1..][k]
      {
        assert s[i + (k + 1)] == w[k + 1];
      }
      EndsWord(s, i + 1, w[1..]);
    }
  }

  /** At e the next token begins or the line ends. */
  ghost predicate NextAt(s: Text, e: nat) {
    e <= |s| && !IsSpace(At(s, e)) && (e < |s| ==> s[e] != NUL)
  }

  /** A word and the gap after it are the next token. */
  lemma {:induction false} WordThen(s: Text, i: nat, w: Text, gap: Text, e: nat)
    requires Holds(s, i, w + gap) && GoodWord(w) && Blank(gap) && e == i + |w| + |gap| && NextAt(s, e)
    requires gap != [] || !IsWord(At(s, e))
    ensures i < |s| && IsWord(s[i]) && GetToken(s, i) == Token('a', i, i + |w|, e) && SpanIs(s, Span(i, i + |w|), w)
  {
    HoldsConcat(s, i, w, gap);
    assert s[i + 0] == w[0];
    if gap != [] {
      assert s[i + |w| + 0] == gap[0];
    }
    EndsWord(s, i, w);
    SkipsBlank(s, i + |w|, gap);
  }

  /** So are a symbol of one character and the gap after it. */
  lemma {:induction false} SymbolThen(s: Text, i: nat, c: char, gap: Text, e: nat)
    requires Holds(s, i, [c] + gap) && IsSymbol(c) && Blank(gap) && e == i + 1 + |gap| && NextAt(s, e)
    requires c == '>' ==> At(s, i + 1) != '>'
    ensures i < |s| && s[i] == c && GetToken(s, i) == Token(c, i, i + 1, e)
  {
    HoldsConcat(s, i, [c], gap);
    HoldsOne(s, i, c);
    SkipsBlank(s, i + 1, gap);
  }

  lemma {:induction false} SignThen(s: Text, i: nat, x: Sign, mid: Text, e: nat)
    requires Holds(s, i, SignText(x) + mid) && Blank(mid) && e == i + |SignText(x)| + |mid| && NextAt(s, e)
    requires At(s, e) != '>'
    ensures i < |s| && IsRedir(s[i]) && GetToken(s, i).next == e
    ensures GetToken(s, i).q == i && (GetToken(s, i).kind == '<' <==> x.Less?)
  {
    HoldsConcat(s, i, SignText(x), mid);
    if mid != [] {
      assert s[i + |SignText(x)| + 0] == mid[0];
    }
    match x
    case Less => SymbolThen(s, i, '<', mid, e);
    case More => SymbolThen(s, i, '>', mid, e);
    case MoreMore =>
      assert SignText(x)[0] == '>' && SignText(x)[1] == '>';
      assert s[i + 0] == '>' && s[i + 1] == '>';
      SkipsBlank(s, i + 2, mid);
  }

  // ----- Simple commands

  /** What comes after a simple command. */
  ghost predicate EndsCommand(s: Text, e: nat) {
    e == |s| || (e < |s| && (s[e] == '|' || s[e] == '&' || s[e] == ';' || s[e] == ')'))
  }

  /** No word goes on at e. */
  ghost predicate Stops(s: Text, e: nat) {
    NextAt(s, e) && !IsWord(At(s, e))
  }

  /** parseredirs and then the loop of parseexec. */
  ghost function ArgsFrom(s: Text, c: Cmd<Span>, argc: nat, i: nat): (r: Result)
    requires i <= |s|
  {
    var r := ParseRedirs(s, c, i);
    if r.Panic? then r else ParseArgs(s, r.cmd, argc, r.pos)
  }

  lemma {:induction false} FileItem(s: Text, c: Cmd<Span>, i: nat, x: Item, e: nat) returns (sp: Span)
    requires x.File? && ItemOk(x) && Holds(s, i, ItemText(x)) && e == i + |ItemText(x)| && NextAt(s, e)
    requires x.gap != [] || !IsWord(At(s, e))
    ensures SpanIs(s, sp, x.w) && i < |s| && IsRedir(s[i])
    ensures ParseRedirs(s, c, i) == ParseRedirs(s, Redir(c, sp, ModeOf(x)), e)
    ensures forall argc: nat :: ArgsFrom(s, c, argc, i) == ArgsFrom(s, Redir(c, sp, ModeOf(x)), argc, e)
  {
    var m := i + |SignText(x.sign)| + |x.mid|;
    HoldsConcat(s, i, SignText(x.sign) + x.mid, x.w + x.gap);
    WordThen(s, m, x.w, x.gap, e);
    SignThen(s, i, x.sign, x.mid, m);
    sp := Span(m, m + |x.w|);
    var t := GetToken(s, i);
    assert ParseRedirs(s, c, i) == RedirTo(s, c, t);
  }

  lemma {:induction false} WordItem(s: Text, c: Cmd<Span>, argc: nat, i: nat, x: Item, e: nat) returns (sp: Span)
    requires x.Word? && ItemOk(x) && Holds(s, i, ItemText(x)) && e == i + |ItemText(x)| && NextAt(s, e)
    requires x.gap != [] || !IsWord(At(s, e))
    ensures SpanIs(s, sp, x.w) && i < |s| && IsWord(s[i])
    ensures ArgsFrom(s, c, argc, i) ==
            if argc + 1 >= 10 then Panic(TooManyArgs) else ArgsFrom(s, AddArg(c, sp), argc + 1, e)
  {
    WordThen(s, i, x.w, x.gap, e);
    sp := Span(i, i + |x.w|);
    assert ParseRedirs(s, c, i) == Ok(c, i);
    assert ParseArgs(s, c, argc, i) == TakeArg(s, c, argc, GetToken(s, i));
  }

  lemma {:induction false} NoItem(s: Text, c: Cmd<Span>, argc: nat, e: nat)
    requires EndsCommand(s, e)
    ensures ParseRedirs(s, c, e) == Ok(c, e) && ArgsFrom(s, c, argc, e) == Ok(c, e) && NextAt(s, e)
  {
    if e == |s| {
      assert GetToken(s, e) == Token(NUL, e, e, e);
    }
    assert ParseArgs(s, c, argc, e) == Ok(c, e);
  }

  /** One more word, or one more redirection. */
  lemma {:induction false} SpellsArg(s: Text, c: Cmd<Span>, args: seq<Text>, items: seq<Item>, sp: Span, w: Text)
    requires Spells(s, c, Wrapped(Exec(args), items)) && SpanIs(s, sp, w)
    ensures Spells(s, AddArg(c, sp), Wrapped(Exec(args + [w]), items))
  {
    if items != [] {
      var n := |items| - 1;
      SpellsArg(s, if items[n].File? then c.cmd else c, args, items[..n], sp, w);
    }
  }

  lemma {:induction false} ShortWrapped(t: Tree, items: seq<Item>)
    ensures ShortCommands(Wrapped(t, items)) == ShortCommands(t)
  {
    if items != [] {
      ShortWrapped(t, items[..|items| - 1]);
    }
  }

  lemma {:induction false} OneMore(t: Tree, done: seq<Item>, x: Item)
    ensures Args(done + [x]) == if x.Word? then Args(done) + [x.w] else Args(done)
    ensures Wrapped(t, done + [x]) == if x.File? then Redir(Wrapped(t, done), x.w, ModeOf(x)) else Wrapped(t, done)
  {
    assert (done + [x])[..|done|] == done;
  }

  lemma {:induction false} MoreArgs(a: seq<Item>, b: seq<Item>)
    ensures |Args(a + b)| >= |Args(a)|
    decreases |b|
  {
    if b == [] {
      assert a + b == a;
    } else {
      var n := |b| - 1;
      assert a + b == (a + b[..n]) + [b[n]];
      OneMore(Exec([]), a + b[..n], b[n]);
      MoreArgs(a, b[..n]);
    }
  }

  /** Where items or their end stand, the next token begins. */
  lemma {:induction false} ItemsStart(s: Text, e: nat, items: seq<Item>, end: nat)
    requires ItemsOk(items) && Holds(s, e, ItemsText(items)) && end == e + |ItemsText(items)| && Stops(s, end)
    ensures NextAt(s, e) && (items == [] || At(s, e) != '(')
    ensures items == [] || items[0].File? ==> !IsWord(At(s, e))
  {
    if items != [] {
      var x := items[0];
      HoldsConcat(s, e, ItemText(x), ItemsText(items[1..]));
      assert s[e + 0] == ItemText(x)[0];
      assert ItemText(x)[0] == if x.Word? then x.w[0] else SignText(x.sign)[0];
    }
  }

  lemma {:induction false} ItemsParts(s: Text, i: nat, items: seq<Item>, e: nat)
    requires items != [] && Holds(s, i, ItemsText(items)) && e == i + |ItemText(items[0])|
    ensures Holds(s, i, ItemText(items[0])) && Holds(s, e, ItemsText(items[1..]))
    ensures i + |ItemsText(items)| == e + |ItemsText(items[1..])|
  {
    HoldsConcat(s, i, ItemText(items[0]), ItemsText(items[1..]));
  }

  /** The first of the items, with the gap after it, is followed by the next. */
  lemma {:induction false} FirstItem(s: Text, i: nat, items: seq<Item>, e: nat)
    requires items != [] && ItemsOk(items) && Holds(s, i, ItemsText(items)) && e == i + |ItemText(items[0])|
    requires Stops(s, i + |ItemsText(items)|)
    ensures ItemOk(items[0]) && Holds(s, i, ItemText(items[0])) && NextAt(s, e)
    ensures items[0].gap != [] || !IsWord(At(s, e))
    ensures ItemsOk(items[1..]) && Holds(s, e, ItemsText(items[1..]))
    ensures i + |ItemsText(items)| == e + |ItemsText(items[1..])|
  {
    ItemsParts(s, i, items, e);
    ItemsStart(s, e, items[1..], i + |ItemsText(items)|);
  }

  lemma {:induction false} SpellsOneMore(s: Text, c: Cmd<Span>, done: seq<Item>, x: Item, sp: Span)
    requires Spells(s, c, SimpleMeans(done)) && SpanIs(s, sp, x.w)
    ensures Spells(s, if x.File? then Redir(c, sp, ModeOf(x)) else AddArg(c, sp), SimpleMeans(done + [x]))
    ensures |Args(done + [x])| == |Args(done)| + if x.Word? then 1 else 0
  {
    OneMore(Exec(Args(done + [x])), done, x);
    if x.Word? {
      SpellsArg(s, c, Args(done), done, sp, x.w);
    }
  }

  lemma {:induction false} SimpleShort(items: seq<Item>)
    ensures ShortCommands(SimpleMeans(items)) <==> |Args(items)| < 10
  {
    ShortWrapped(Exec(Args(items)), items);
  }

  lemma {:induction false} Regroup(done: seq<Item>, items: seq<Item>)
    requires items != []
    ensures done + items == (done + [items[0]]) + items[1..]
  {
  }

  /** n words and some redirections are read, and c is what they make. */
  ghost predicate SoFar(s: Text, c: Cmd<Span>, n: nat, done: seq<Item>) {
    n == |Args(done)| && Spells(s, c, SimpleMeans(done))
  }

  lemma {:induction false} NextFile(s: Text, c: Cmd<Span>, n: nat, i: nat, done: seq<Item>, x: Item, e: nat)
      returns (c': Cmd<Span>)
    requires x.File? && ItemOk(x) && Holds(s, i, ItemText(x)) && e == i + |ItemText(x)| && NextAt(s, e)
    requires SoFar(s, c, n, done) && (x.gap != [] || !IsWord(At(s, e)))
    ensures SoFar(s, c', n, done + [x]) && i <= |s| && ArgsFrom(s, c, n, i) == ArgsFrom(s, c', n, e)
  {
    var sp := FileItem(s, c, i, x, e);
    SpellsOneMore(s, c, done, x, sp);
    c' := Redir(c, sp, ModeOf(x));
  }

  lemma {:induction false} NextWord(s: Text, c: Cmd<Span>, n: nat, i: nat, done: seq<Item>, x: Item, e: nat)
      returns (c': Cmd<Span>)
    requires x.Word? && ItemOk(x) && Holds(s, i, ItemText(x)) && e == i + |ItemText(x)| && NextAt(s, e)
    requires SoFar(s, c, n, done) && (x.gap != [] || !IsWord(At(s, e)))
    ensures SoFar(s, c', n + 1, done + [x]) && i <= |s|
    ensures ArgsFrom(s, c, n, i) == if n + 1 >= 10 then Panic(TooManyArgs) else ArgsFrom(s, c', n + 1, e)
  {
    var sp := WordItem(s, c, n, i, x, e);
    SpellsOneMore(s, c, done, x, sp);
    c' := AddArg(c, sp);
  }

  /** The loop takes the items in order, the words into argv and the redirections around,
      unless there are too many words. */
  lemma {:induction false} ItemsTaken(s: Text, i: nat, done: seq<Item>, items: seq<Item>, c: Cmd<Span>, n: nat,
                                      all: seq<Item>, e: nat) returns (c': Cmd<Span>)
    requires ItemsOk(items) && Holds(s, i, ItemsText(items)) && Stops(s, e) && e == i + |ItemsText(items)|
    requires n < 10 && SoFar(s, c, n, done) && all == done + items
    ensures |Args(all)| >= 10 ==> ArgsFrom(s, c, n, i) == Panic(TooManyArgs)
    ensures |Args(all)| < 10 ==> SoFar(s, c', |Args(all)|, all)
    ensures |Args(all)| < 10 ==> ArgsFrom(s, c, n, i) == ArgsFrom(s, c', |Args(all)|, e)
    decreases |items|
  {
    c' := c;
    if items == [] {
      assert all == done;
    } else {
      var x, rest, j := items[0], items[1..], i + |ItemText(items[0])|;
      FirstItem(s, i, items, j);
      Regroup(done, items);
      if x.File? {
        c' := NextFile(s, c, n, i, done, x, j);
        c' := ItemsTaken(s, j, done + [x], rest, c', n, all, e);
      } else {
        c' := NextWord(s, c, n, i, done, x, j);
        if n + 1 >= 10 {
          MoreArgs(done + [x], rest);
        } else {
          c' := ItemsTaken(s, j, done + [x], rest, c', n + 1, all, e);
        }
      }
    }
  }

  /** So a simple command is read as the tree it means. */
  lemma {:induction false} ItemsRead(s: Text, i: nat, items: seq<Item>, e: nat)
    requires ItemsOk(items) && Holds(s, i, ItemsText(items)) && EndsCommand(s, e) && e == i + |ItemsText(items)|
    ensures ReadsAs(s, SimpleMeans(items), e, ArgsFrom(s, Exec([]), 0, i))
  {
    NoItem(s, Exec([]), 0, e);
    SimpleShort(items);
    var c := ItemsTaken(s, i, [], items, Exec([]), 0, items, e);
    if |Args(items)| < 10 {
      NoItem(s, c, |Args(items)|, e);
    }
  }

  /** After a block there are redirections only. */
  lemma {:induction false} RedirsTaken(s: Text, i: nat, t: Tree, done: seq<Item>, items: seq<Item>, c: Cmd<Span>,
                                       all: seq<Item>, e: nat) returns (c': Cmd<Span>)
    requires ItemsOk(items) && AllFiles(items) && all == done + items
    requires Holds(s, i, ItemsText(items)) && Stops(s, e) && e == i + |ItemsText(items)|
             && Spells(s, c, Wrapped(t, done))
    ensures Spells(s, c', Wrapped(t, all)) && ParseRedirs(s, c, i) == ParseRedirs(s, c', e)
    decreases |items|
  {
    c' := c;
    if items == [] {
      assert all == done;
    } else {
      var x, rest, j := items[0], items[1..], i + |ItemText(items[0])|;
      FirstItem(s, i, items, j);
      Regroup(done, items);
      OneMore(t, done, x);
      var sp := FileItem(s, c, i, x, j);
      c' := RedirsTaken(s, j, t, done + [x], rest, Redir(c, sp, ModeOf(x)), all, e);
    }
  }

  lemma {:induction false} RedirsRead(s: Text, i: nat, t: Tree, items: seq<Item>, c: Cmd<Span>)
    requires ItemsOk(items) && AllFiles(items) && Spells(s, c, t)
    requires Holds(s, i, ItemsText(items)) && EndsCommand(s, i + |ItemsText(items)|)
    ensures var r := ParseRedirs(s, c, i);
            r.Ok? && r.pos == i + |ItemsText(items)| && Spells(s, r.cmd, Wrapped(t, items))
  {
    var e := i + |ItemsText(items)|;
    NoItem(s, c, 0, e);
    var c' := RedirsTaken(s, i, t, [], items, c, items, e);
    NoItem(s, c', 0, e);
  }
}
