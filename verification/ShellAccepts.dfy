/** The parser accepts no other lines, and what it says of those it does not. */
module ShellAccepts {
  import opened ShellSpec
  import opened ShellStrings
  import opened ShellGrammar
  import opened ShellReads

  // ----- Tokens of a line without NULs

  lemma {:induction false} SkipIsBlank(s: Text, i: nat)
    requires i <= |s| && NoNul(s)
    ensures Blank(s[i..Skip(s, i)]) && NextAt(s, Skip(s, i))
    decreases |s| - i
  {
    if i < |s| && IsSpace(s[i]) {
      SkipIsBlank(s, i + 1);
      var g, g' := s[i..Skip(s, i)], s[i + 1..Skip(s, i)];
      assert g == [s[i]] + g';
    }
  }

  lemma {:induction false} HoldsSlice(s: Text, i: nat, j: nat)
    requires i <= j <= |s|
    ensures Holds(s, i, s[i..j])
  {
  }

  lemma {:induction false} TokenShape(s: Text, i: nat)
    requires i < |s| && NoNul(s) && NextAt(s, i)
    ensures var t := GetToken(s, i);
            && t.q == i && i < t.eq && Blank(s[t.eq..t.next]) && NextAt(s, t.next)
            && (t.kind == 'a' ==> GoodWord(s[i..t.eq]) && (t.eq == t.next ==> Stops(s, t.next)))
  {
    var t := GetToken(s, i);
    SkipIsBlank(s, t.eq);
    if t.kind == 'a' {
      TokenIsWord(s, i);
    }
  }

  // ----- From the parser's result to what was typed

  /** The word at i. */
  lemma {:induction false} WordTyped(s: Text, i: nat) returns (x: Item)
    requires i < |s| && NoNul(s) && NextAt(s, i) && GetToken(s, i).kind == 'a'
    ensures var e := GetToken(s, i).next;
            && x.Word? && ItemOk(x) && Holds(s, i, ItemText(x)) && e == i + |ItemText(x)| && NextAt(s, e)
            && (x.gap != [] || !IsWord(At(s, e)))
  {
    var t := GetToken(s, i);
    TokenShape(s, i);
    x := Word(s[i..t.eq], s[t.eq..t.next]);
    HoldsSlice(s, i, t.eq);
    HoldsSlice(s, t.eq, t.next);
    HoldsConcat(s, i, x.w, x.gap);
  }

  lemma {:induction false} SignTyped(s: Text, i: nat) returns (sign: Sign, mid: Text)
    requires i < |s| && NoNul(s) && NextAt(s, i) && IsRedir(s[i])
    ensures Blank(mid) && Holds(s, i, SignText(sign) + mid) && GetToken(s, i).next == i + |SignText(sign) + mid|
  {
    var t := GetToken(s, i);
    TokenShape(s, i);
    sign := if s[i] == '<' then Less else if At(s, i + 1) == '>' then MoreMore else More;
    mid := s[t.eq..t.next];
    assert SignText(sign) == s[i..t.eq];
    HoldsSlice(s, i, t.eq);
    HoldsSlice(s, t.eq, t.next);
    HoldsConcat(s, i, SignText(sign), mid);
  }

  /** The redirection at i. */
  lemma {:induction false} FileTyped(s: Text, i: nat) returns (x: Item)
    requires i < |s| && NoNul(s) && NextAt(s, i) && IsRedir(s[i])
    requires GetToken(s, GetToken(s, i).next).kind == 'a'
    ensures var e := GetToken(s, GetToken(s, i).next).next;
            && x.File? && ItemOk(x) && Holds(s, i, ItemText(x)) && e == i + |ItemText(x)| && NextAt(s, e)
            && (x.gap != [] || !IsWord(At(s, e)))
  {
    var t := GetToken(s, i);
    TokenShape(s, i);
    assert t.next < |s|;
    var w := WordTyped(s, t.next);
    var sign, mid := SignTyped(s, i);
    x := File(sign, mid, w.w, w.gap);
    HoldsConcat(s, i, SignText(sign) + mid, w.w + w.gap);
  }

  /** The items from i on, up to e. */
  ghost predicate ItemsAt(s: Text, i: nat, items: seq<Item>, e: nat) {
    ItemsOk(items) && Holds(s, i, ItemsText(items)) && e == i + |ItemsText(items)| && NextAt(s, e)
  }

  /** One more item before the others. */
  lemma {:induction false} ItemBefore(s: Text, i: nat, x: Item, e: nat, rest: seq<Item>)
    requires ItemOk(x) && Holds(s, i, ItemText(x)) && e == i + |ItemText(x)| && (x.gap != [] || !IsWord(At(s, e)))
    requires ItemsOk(rest) && Holds(s, e, ItemsText(rest))
    ensures ItemsOk([x] + rest) && Holds(s, i, ItemsText([x] + rest))
    ensures |ItemsText([x] + rest)| == |ItemText(x)| + |ItemsText(rest)|
  {
    assert ([x] + rest)[1..] == rest;
    HoldsConcat(s, i, ItemText(x), ItemsText(rest));
    if rest != [] && rest[0].Word? {
      HoldsConcat(s, e, ItemText(rest[0]), ItemsText(rest[1..]));
      assert s[e + 0] == ItemText(rest[0])[0] == rest[0].w[0];
    }
  }

  lemma {:induction false} FileStep(s: Text, c: Cmd<Span>, i: nat) returns (d: Cmd<Span>)
    requires i < |s| && NoNul(s) && NextAt(s, i) && IsRedir(s[i]) && ParseRedirs(s, c, i).Ok?
    ensures var f := GetToken(s, GetToken(s, i).next);
            f.kind == 'a' && i < f.next && ParseRedirs(s, c, i) == ParseRedirs(s, d, f.next)
  {
    var t := GetToken(s, i);
    var f := GetToken(s, t.next);
    TokenShape(s, i);
    assert ParseRedirs(s, c, i) == RedirTo(s, c, t);
    assert f.kind == 'a';
    d := Redir(c, Span(f.q, f.eq), if t.kind == '<' then In else Out);
  }

  lemma {:induction false} RedirsTyped(s: Text, c: Cmd<Span>, i: nat) returns (items: seq<Item>)
    requires NextAt(s, i) && NoNul(s) && ParseRedirs(s, c, i).Ok?
    ensures AllFiles(items) && ItemsAt(s, i, items, ParseRedirs(s, c, i).pos)
    decreases |s| - i
  {
    items := [];
    if i < |s| && IsRedir(s[i]) {
      var d := FileStep(s, c, i);
      var x := FileTyped(s, i);
      var e := i + |ItemText(x)|;
      var rest := RedirsTyped(s, d, e);
      ItemBefore(s, i, x, e, rest);
      items := [x] + rest;
    }
  }

  /** One round of the loop of parseexec. */
  lemma {:induction false} WordStep(s: Text, c: Cmd<Span>, n: nat, i: nat) returns (d: Cmd<Span>)
    requires NextAt(s, i) && NoNul(s) && !IsRedir(At(s, i)) && ArgsFrom(s, c, n, i).Ok? && !EndsCommand(s, i)
    ensures var t := GetToken(s, i);
            t.kind == 'a' && i < t.next && ArgsFrom(s, c, n, i) == ArgsFrom(s, d, n + 1, t.next)
  {
    assert ParseRedirs(s, c, i) == Ok(c, i);
    var t := GetToken(s, i);
    assert ParseArgs(s, c, n, i) == TakeArg(s, c, n, t);
    assert t.kind == 'a';
    d := AddArg(c, Span(t.q, t.eq));
  }

  /** x stands at i, and the next token at e. */
  ghost predicate ItemAt(s: Text, i: nat, x: Item, e: nat) {
    ItemOk(x) && Holds(s, i, ItemText(x)) && e == i + |ItemText(x)| && NextAt(s, e)
        && (x.gap != [] || !IsWord(At(s, e)))
  }

  lemma {:induction false} ArgsStep(s: Text, c: Cmd<Span>, n: nat, i: nat)
      returns (x: Item, d: Cmd<Span>, m: nat, e: nat)
    requires NextAt(s, i) && NoNul(s) && ArgsFrom(s, c, n, i).Ok? && !EndsCommand(s, i)
    ensures i < e && ItemAt(s, i, x, e) && ArgsFrom(s, c, n, i) == ArgsFrom(s, d, m, e)
  {
    if IsRedir(At(s, i)) {
      d := FileStep(s, c, i);
      x := FileTyped(s, i);
      m, e := n, GetToken(s, GetToken(s, i).next).next;
    } else {
      d := WordStep(s, c, n, i);
      x := WordTyped(s, i);
      m, e := n + 1, GetToken(s, i).next;
    }
  }

  lemma {:induction false} ItemsTyped(s: Text, c: Cmd<Span>, n: nat, i: nat, r: Result) returns (items: seq<Item>)
    requires NextAt(s, i) && NoNul(s) && r == ArgsFrom(s, c, n, i) && r.Ok?
    ensures ItemsAt(s, i, items, r.pos)
    decreases |s| - i
  {
    items := [];
    if EndsCommand(s, i) {
      NoItem(s, c, n, i);
    } else {
      var x, d, m, e := ArgsStep(s, c, n, i);
      var rest := ItemsTyped(s, d, m, e, r);
      ItemBefore(s, i, x, e, rest);
      items := [x] + rest;
    }
  }

  /** A symbol, the gap after it and what follows, put together. */
  lemma {:induction false} SymbolTyped(s: Text, i: nat, c: char) returns (gap: Text)
    requires i < |s| && NoNul(s) && NextAt(s, i) && s[i] == c && IsSymbol(c) && c != '>'
    ensures var e := GetToken(s, i).next;
            Blank(gap) && e == i + 1 + |gap| && NextAt(s, e) && Holds(s, i, [c] + gap)
  {
    var t := GetToken(s, i);
    TokenShape(s, i);
    gap := s[i + 1..t.next];
    HoldsOne(s, i, c);
    HoldsSlice(s, i + 1, t.next);
    HoldsConcat(s, i, [c], gap);
  }

  lemma {:induction false} BacksTyped(s: Text, c: Cmd<Span>, i: nat) returns (backs: seq<Text>)
    requires NextAt(s, i) && NoNul(s)
    ensures BacksOk(backs) && Holds(s, i, BacksText(backs))
    ensures ParseBacks(s, c, i).pos == i + |BacksText(backs)| && NextAt(s, ParseBacks(s, c, i).pos)
    decreases |s| - i
  {
    backs := [];
    if At(s, i) == '&' {
      var gap := SymbolTyped(s, i, '&');
      var rest := BacksTyped(s, Back(c), GetToken(s, i).next);
      backs := [gap] + rest;
      assert backs[1..] == rest;
      HoldsConcat(s, i, ['&'] + gap, BacksText(rest));
    }
  }

  lemma {:induction false} HoldsThree(s: Text, i: nat, a: Text, b: Text, c: Text)
    requires Holds(s, i, a) && Holds(s, i + |a|, b) && Holds(s, i + |a| + |b|, c)
    ensures Holds(s, i, a + (b + c)) && |a + (b + c)| == |a| + |b| + |c|
  {
    HoldsConcat(s, i + |a|, b, c);
    HoldsConcat(s, i, a, b + c);
  }

  lemma {:induction false} JoinBlock(s: Text, i: nat, c: Command, j: nat, k: nat, m: nat)
    requires c.Block? && Holds(s, i, ['('] + c.open) && j == i + 1 + |c.open| && Holds(s, j, LineText(c.line))
    requires k == j + |LineText(c.line)| && Holds(s, k, [')'] + c.close) && m == k + 1 + |c.close|
    requires Holds(s, m, ItemsText(c.redirs))
    ensures Holds(s, i, CommandText(c)) && i + |CommandText(c)| == m + |ItemsText(c.redirs)|
  {
    HoldsConcat(s, k, [')'] + c.close, ItemsText(c.redirs));
    HoldsThree(s, i, ['('] + c.open, LineText(c.line), [')'] + c.close + ItemsText(c.redirs));
  }

  ghost predicate CommandAt(s: Text, i: nat, c: Command, e: nat) {
    CommandOk(c) && Holds(s, i, CommandText(c)) && e == i + |CommandText(c)| && NextAt(s, e)
  }

  ghost predicate LineAt(s: Text, i: nat, l: Line, e: nat) {
    LineOk(l) && Holds(s, i, LineText(l)) && e == i + |LineText(l)| && NextAt(s, e)
  }

  /** Where a block is closed. */
  lemma {:induction false} BlockTailEnds(s: Text, i: nat, r: Result, k: nat, m: nat)
    requires r.Ok? && i <= r.pos == k <= |s| && NextAt(s, k) && BlockTail(s, i, r).Ok?
    requires k < |s| && s[k] == ')' ==> m == GetToken(s, k).next
    ensures k < |s| && s[k] == ')' && m <= |s| && BlockTail(s, i, r) == ParseRedirs(s, r.cmd, m)
  {
    assert Skip(s, k) == k;
  }

  /** A block, given what was typed inside it. */
  lemma {:induction false} BlockTyped(s: Text, i: nat, open: Text, line: Line, j: nat, r: Result) returns (c: Command)
    requires NoNul(s) && Holds(s, i, ['('] + open) && Blank(open) && j == i + 1 + |open|
    requires r.Ok? && LineAt(s, j, line, r.pos) && BlockTail(s, i, r).Ok?
    ensures CommandAt(s, i, c, BlockTail(s, i, r).pos)
  {
    var k := r.pos;
    BlockTailEnds(s, i, r, k, GetToken(s, k).next);
    var close := SymbolTyped(s, k, ')');
    var m := k + 1 + |close|;
    var redirs := RedirsTyped(s, r.cmd, m);
    c := Block(open, line, close, redirs);
    JoinBlock(s, i, c, j, k, m);
  }

  lemma {:induction false} CommandTyped(s: Text, i: nat, r: Result) returns (c: Command)
    requires NextAt(s, i) && NoNul(s) && r == ParseExec(s, i) && r.Ok?
    ensures CommandAt(s, i, c, r.pos)
    decreases |s| - i, 0
  {
    if At(s, i) == '(' {
      var open := SymbolTyped(s, i, '(');
      var j := i + 1 + |open|;
      ReadOpen(s, i, open, j);
      var line := LineTyped(s, j, ParseLine(s, j).pos);
      c := BlockTyped(s, i, open, line, j, ParseLine(s, j));
    } else {
      assert r == ArgsFrom(s, Exec([]), 0, i);
      var items := ItemsTyped(s, Exec([]), 0, i, r);
      c := Simple(items);
    }
  }

  ghost predicate PipelineAt(s: Text, i: nat, p: Pipeline, e: nat) {
    PipelineOk(p) && Holds(s, i, PipelineText(p)) && e == i + |PipelineText(p)| && NextAt(s, e)
  }

  lemma {:induction false} JoinBar(s: Text, i: nat, p: Pipeline, j: nat, k: nat)
    requires p.Bar? && Holds(s, i, CommandText(p.cmd)) && j == i + |CommandText(p.cmd)| && Holds(s, j, ['|'] + p.gap)
    requires k == j + 1 + |p.gap| && Holds(s, k, PipelineText(p.rest))
    ensures Holds(s, i, PipelineText(p)) && i + |PipelineText(p)| == k + |PipelineText(p.rest)|
  {
    HoldsConcat(s, j, ['|'] + p.gap, PipelineText(p.rest));
    HoldsConcat(s, i, CommandText(p.cmd), ['|'] + p.gap + PipelineText(p.rest));
  }

  lemma {:induction false} FirstOk(s: Text, i: nat)
    requires i <= |s| && ParsePipe(s, i).Ok?
    ensures ParseExec(s, i).Ok?
  {
    assert ParsePipe(s, i) == PipeTail(s, i, ParseExec(s, i));
  }

  /** Where parsepipe ends. */
  lemma {:induction false} PipeTailEnds(s: Text, i: nat, first: Result, r: Result)
    requires i <= |s| && ParseExec(s, i) == first && first.Ok? && NextAt(s, first.pos) && ParsePipe(s, i) == r && r.Ok?
    ensures At(s, first.pos) != '|' ==> r.pos == first.pos
    ensures At(s, first.pos) == '|' ==>
      var next := ParsePipe(s, GetToken(s, first.pos).next);
      next.Ok? && r.pos == next.pos
  {
    assert r == PipeTail(s, i, first);
    assert Skip(s, first.pos) == first.pos;
  }

  lemma {:induction false} OneTyped(s: Text, i: nat, c: Command, e: nat) returns (p: Pipeline)
    requires CommandAt(s, i, c, e)
    ensures PipelineAt(s, i, p, e)
  {
    p := One(c);
  }

  lemma {:induction false} BarTyped(s: Text, i: nat, c: Command, j: nat, gap: Text, m: nat, rest: Pipeline,
                                    e: nat) returns (p: Pipeline)
    requires CommandAt(s, i, c, j) && Holds(s, j, ['|'] + gap) && Blank(gap)
    requires m == j + 1 + |gap| && PipelineAt(s, m, rest, e)
    ensures PipelineAt(s, i, p, e)
  {
    p := Bar(c, gap, rest);
    JoinBar(s, i, p, j, m);
  }

  lemma {:induction false} PipelineTyped(s: Text, i: nat, r: Result) returns (p: Pipeline)
    requires NextAt(s, i) && NoNul(s) && r == ParsePipe(s, i) && r.Ok?
    ensures PipelineAt(s, i, p, r.pos)
    decreases |s| - i, 1
  {
    var first := ParseExec(s, i);
    FirstOk(s, i);
    var c := CommandTyped(s, i, first);
    PipeTailEnds(s, i, first, r);
    var j := first.pos;
    if At(s, j) == '|' {
      var m := GetToken(s, j).next;
      var gap := SymbolTyped(s, j, '|');
      var rest := PipelineTyped(s, m, ParsePipe(s, m));
      p := BarTyped(s, i, c, j, gap, m, rest, ParsePipe(s, m).pos);
    } else {
      p := OneTyped(s, i, c, j);
    }
  }

  lemma {:induction false} JoinSemi(s: Text, i: nat, l: Line, j: nat, k: nat, m: nat)
    requires l.Semi? && Holds(s, i, PipelineText(l.pipe)) && j == i + |PipelineText(l.pipe)|
    requires Holds(s, j, BacksText(l.backs)) && k == j + |BacksText(l.backs)| && Holds(s, k, [';'] + l.gap)
    requires m == k + 1 + |l.gap| && Holds(s, m, LineText(l.rest))
    ensures Holds(s, i, LineText(l)) && i + |LineText(l)| == m + |LineText(l.rest)|
  {
    HoldsConcat(s, k, [';'] + l.gap, LineText(l.rest));
    HoldsThree(s, i, PipelineText(l.pipe), BacksText(l.backs), [';'] + l.gap + LineText(l.rest));
  }

  /** Where parseline ends. */
  lemma {:induction false} LineTailEnds(s: Text, i: nat, r: Result)
    requires i <= |s| && ParsePipe(s, i) == r && ParseLine(s, i).Ok?
    ensures r.Ok? && r.pos <= |s|
    ensures var k := ParseBacks(s, r.cmd, r.pos).pos;
            if At(s, k) != ';' then ParseLine(s, i).pos == k
            else
              var next := ParseLine(s, GetToken(s, k).next);
              next.Ok? && ParseLine(s, i).pos == next.pos
  {
    assert ParseLine(s, i) == LineTail(s, i, r);
  }

  /** A line up to its ';' or its end. */
  ghost predicate HeadAt(s: Text, i: nat, p: Pipeline, backs: seq<Text>, k: nat) {
    && PipelineOk(p) && BacksOk(backs) && Holds(s, i, PipelineText(p))
    && Holds(s, i + |PipelineText(p)|, BacksText(backs)) && k == i + |PipelineText(p)| + |BacksText(backs)|
        && NextAt(s, k)
  }

  lemma {:induction false} HeadTyped(s: Text, i: nat, r: Result) returns (p: Pipeline, backs: seq<Text>)
    requires NextAt(s, i) && NoNul(s) && r == ParsePipe(s, i) && r.Ok?
    ensures r.pos <= |s| && HeadAt(s, i, p, backs, ParseBacks(s, r.cmd, r.pos).pos)
    decreases |s| - i, 2
  {
    p := PipelineTyped(s, i, r);
    backs := BacksTyped(s, r.cmd, r.pos);
  }

  lemma {:induction false} LastTyped(s: Text, i: nat, p: Pipeline, backs: seq<Text>, k: nat) returns (l: Line)
    requires HeadAt(s, i, p, backs, k)
    ensures LineAt(s, i, l, k)
  {
    HoldsConcat(s, i, PipelineText(p), BacksText(backs));
    l := Last(p, backs);
  }

  lemma {:induction false} SemiTyped(s: Text, i: nat, p: Pipeline, backs: seq<Text>, k: nat, gap: Text, rest: Line,
                                     e: nat)
      returns (l: Line)
    requires HeadAt(s, i, p, backs, k) && Holds(s, k, [';'] + gap) && Blank(gap) && LineAt(s, k + 1 + |gap|, rest, e)
    ensures LineAt(s, i, l, e)
  {
    l := Semi(p, backs, gap, rest);
    JoinSemi(s, i, l, i + |PipelineText(p)|, k, k + 1 + |gap|);
  }

  /** What parseline has read was typed. */
  lemma {:induction false} LineTyped(s: Text, i: nat, e: nat) returns (l: Line)
    requires NextAt(s, i) && NoNul(s) && ParseLine(s, i).Ok? && e == ParseLine(s, i).pos
    ensures LineAt(s, i, l, e)
    decreases |s| - i, 3
  {
    var r := ParsePipe(s, i);
    LineTailEnds(s, i, r);
    var p, backs := HeadTyped(s, i, r);
    var k := ParseBacks(s, r.cmd, r.pos).pos;
    if At(s, k) == ';' {
      var gap := SymbolTyped(s, k, ';');
      var rest := LineTyped(s, k + 1 + |gap|, e);
      l := SemiTyped(s, i, p, backs, k, gap, rest, e);
    } else {
      l := LastTyped(s, i, p, backs, k);
    }
  }

  // ----- Which lines are accepted

  ghost predicate Typed(s: Text, gap: Text, l: Line) {
    Blank(gap) && LineOk(l) && s == gap + LineText(l)
  }

  lemma {:induction false} AcceptedIsTyped(s: Text) returns (gap: Text, l: Line)
    requires NoNul(s) && ParseCmd(s).Ok?
    ensures Typed(s, gap, l)
  {
    var i := Skip(s, 0);
    SkipIsBlank(s, 0);
    BlankBefore(s, 0);
    gap := s[..i];
    l := LineTyped(s, i, ParseLine(s, i).pos);
    assert ParseLine(s, i).pos == |s|;
    assert LineText(l) == s[i..];
  }

  /** parsecmd accepts just the lines that may be typed and have no command of ten words
      or more, and the tree is the one that the line means, however it is taken apart. */
  lemma {:induction false} AcceptsExactly(s: Text)
    requires NoNul(s)
    ensures ParseCmd(s).Ok? <==> exists gap, l :: Typed(s, gap, l) && ShortCommands(LineMeans(l))
    ensures forall gap, l :: Typed(s, gap, l) && ParseCmd(s).Ok? ==> Spells(s, ParseCmd(s).cmd, LineMeans(l))
  {
    forall gap, l | Typed(s, gap, l)
      ensures ParseCmd(s).Ok? <==> ShortCommands(LineMeans(l))
      ensures ParseCmd(s).Ok? ==> Spells(s, ParseCmd(s).cmd, LineMeans(l))
    {
      TypedIsRead(gap, l);
    }
    if ParseCmd(s).Ok? {
      var gap, l := AcceptedIsTyped(s);
      assert Typed(s, gap, l) && ShortCommands(LineMeans(l));
    }
  }

  // ----- What it says of the others

  /** A line after white space, and the complaint about its first command. */
  lemma {:induction false} Complains(s: Text, gap: Text, e: Error)
    requires Holds(s, 0, gap) && Blank(gap) && NextAt(s, |gap|) && ParseExec(s, |gap|) == Panic(e)
    ensures ParseCmd(s) == Panic(e)
  {
    SkipsBlank(s, 0, gap);
    BlankBefore(s, 0);
    assert ParsePipe(s, |gap|) == PipeTail(s, |gap|, Panic(e));
    assert ParseLine(s, |gap|) == LineTail(s, |gap|, Panic(e));
  }

  lemma {:induction false} HoldsAll(a: Text, b: Text, c: Text)
    ensures Holds(a + b + c, 0, a) && Holds(a + b + c, |a|, b) && Holds(a + b + c, |a| + |b|, c)
  {
    var s := a + b + c;
    assert Holds(s, 0, s);
    HoldsConcat(s, 0, a + b, c);
    HoldsConcat(s, 0, a, b);
  }

  /** A parenthesis that is not closed. */
  lemma {:induction false} NotClosed(gap: Text, open: Text, l: Line)
    requires Blank(gap) && Blank(open) && LineOk(l) && ShortCommands(LineMeans(l))
    ensures ParseCmd(gap + (['('] + open) + LineText(l)) == Panic(MissingParen)
  {
    var s, i, j := gap + (['('] + open) + LineText(l), |gap|, |gap| + 1 + |open|;
    HoldsAll(gap, ['('] + open, LineText(l));
    HoldsConcat(s, i, ['('], open);
    HoldsOne(s, i, '(');
    LineStarts(s, j, l);
    LineReads(s, j, l);
    ReadOpen(s, i, open, j);
    Complains(s, gap, MissingParen);
  }

  lemma {:induction false} LeavesOver(s: Text, gap: Text, e: nat)
    requires Holds(s, 0, gap) && Blank(gap) && NextAt(s, |gap|) && ParseLine(s, |gap|).Ok?
    requires ParseLine(s, |gap|).pos == e < |s| && !IsSpace(s[e])
    ensures ParseCmd(s) == Panic(Leftovers)
  {
    SkipsBlank(s, 0, gap);
    BlankBefore(s, 0);
  }

  /** One that was not opened. */
  lemma {:induction false} NotOpened(gap: Text, l: Line, rest: Text)
    requires Blank(gap) && LineOk(l) && ShortCommands(LineMeans(l))
    ensures ParseCmd(gap + LineText(l) + ([')'] + rest)) == Panic(Leftovers)
  {
    var s, e := gap + LineText(l) + ([')'] + rest), |gap| + |LineText(l)|;
    HoldsAll(gap, LineText(l), [')'] + rest);
    HoldsConcat(s, e, [')'], rest);
    HoldsOne(s, e, ')');
    LineStarts(s, |gap|, l);
    LineReads(s, |gap|, l);
    LeavesOver(s, gap, e);
  }

  /** The items of a simple command, and then something else at e. */
  lemma {:induction false} AfterItems(s: Text, i: nat, items: seq<Item>, e: nat) returns (c: Cmd<Span>)
    requires ItemsOk(items) && Holds(s, i, ItemsText(items)) && e == i + |ItemsText(items)| && |Args(items)| < 10
    requires Stops(s, e) && (items == [] ==> At(s, e) != '(')
    ensures NextAt(s, i) && ParseExec(s, i) == ArgsFrom(s, c, |Args(items)|, e)
  {
    ItemsStart(s, i, items, e);
    c := ItemsTaken(s, i, [], items, Exec([]), 0, items, e);
    assert ParseExec(s, i) == ArgsFrom(s, Exec([]), 0, i);
  }

  /** A parenthesis after words or redirections. */
  lemma {:induction false} NotExpected(gap: Text, items: seq<Item>, rest: Text)
    requires Blank(gap) && ItemsOk(items) && items != [] && |Args(items)| < 10
    ensures ParseCmd(gap + ItemsText(items) + (['('] + rest)) == Panic(Syntax)
  {
    var s, i, e := gap + ItemsText(items) + (['('] + rest), |gap|, |gap| + |ItemsText(items)|;
    HoldsAll(gap, ItemsText(items), ['('] + rest);
    HoldsConcat(s, e, ['('], rest);
    HoldsOne(s, e, '(');
    var c := AfterItems(s, i, items, e);
    assert ParseRedirs(s, c, e) == Ok(c, e);
    assert ParseArgs(s, c, |Args(items)|, e) == TakeArg(s, c, |Args(items)|, GetToken(s, e));
    Complains(s, gap, Syntax);
  }

  lemma {:induction false} NoFileStops(s: Text, e: nat, p: Text, x: Sign, mid: Text, rest: Text, m: nat)
    requires Holds(s, e, p) && p == SignText(x) + mid + rest && e + |p| == |s| && m == e + |SignText(x) + mid|
    requires rest == [] || (IsSymbol(rest[0]) && rest[0] != '>')
    ensures Holds(s, e, SignText(x) + mid) && Stops(s, m) && At(s, m) != '>'
  {
    HoldsConcat(s, e, SignText(x) + mid, rest);
    assert rest != [] ==> s[m + 0] == rest[0];
  }

  lemma {:induction false} SignStops(s: Text, e: nat, x: Sign, mid: Text, m: nat)
    requires Holds(s, e, SignText(x) + mid) && Blank(mid) && m == e + |SignText(x) + mid| && Stops(s, m)
             && At(s, m) != '>'
    ensures Stops(s, e) && At(s, e) != '('
  {
    SignThen(s, e, x, mid, m);
  }

  lemma {:induction false} NoFileAt(s: Text, c: Cmd<Span>, n: nat, e: nat, x: Sign, mid: Text, m: nat)
    requires Holds(s, e, SignText(x) + mid) && Blank(mid) && m == e + |SignText(x) + mid| && Stops(s, m)
             && At(s, m) != '>'
    ensures e <= |s| && ArgsFrom(s, c, n, e) == Panic(MissingFile)
  {
    SignThen(s, e, x, mid, m);
    assert ParseRedirs(s, c, e) == RedirTo(s, c, GetToken(s, e));
    assert GetToken(s, m).kind != 'a';
  }

  /** A redirection to nowhere. */
  lemma {:induction false} NoFile(gap: Text, items: seq<Item>, x: Sign, mid: Text, rest: Text)
    requires Blank(gap) && ItemsOk(items) && |Args(items)| < 10 && Blank(mid)
    requires rest == [] || (IsSymbol(rest[0]) && rest[0] != '>')
    ensures ParseCmd(gap + ItemsText(items) + (SignText(x) + mid + rest)) == Panic(MissingFile)
  {
    var p, tail := ItemsText(items), SignText(x) + mid + rest;
    var s, e := gap + p + tail, |gap| + |p|;
    HoldsAll(gap, p, tail);
    var m := e + |SignText(x) + mid|;
    NoFileStops(s, e, tail, x, mid, rest, m);
    SignStops(s, e, x, mid, m);
    var c := AfterItems(s, |gap|, items, e);
    NoFileAt(s, c, |Args(items)|, e, x, mid, m);
    Complains(s, gap, MissingFile);
  }
}
