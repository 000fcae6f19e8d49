/** The parser reads every line that may be typed as the tree it means. */
module ShellReads {
  import opened ShellSpec
  import opened ShellGrammar

  // ----- Where the parts of a line stand

  ghost predicate EndsPipeline(s: Text, e: nat) {
    e == |s| || (e < |s| && (s[e] == '&' || s[e] == ';' || s[e] == ')'))
  }

  ghost predicate EndsLine(s: Text, e: nat) {
    e == |s| || (e < |s| && s[e] == ')')
  }

  /** A symbol, the gap after it, and what follows. */
  lemma {:induction false} SymbolParts(s: Text, i: nat, c: char, gap: Text, p: Text)
    requires Holds(s, i, [c] + gap + p)
    ensures i < |s| && s[i] == c && Holds(s, i, [c] + gap) && Holds(s, i + 1 + |gap|, p)
  {
    HoldsConcat(s, i, [c] + gap, p);
    HoldsConcat(s, i, [c], gap);
    HoldsOne(s, i, c);
  }

  lemma {:induction false} TextParts(s: Text, i: nat, p: Text, a: Text, c: char, gap: Text, b: Text, j: nat)
    requires Holds(s, i, p) && p == a + ([c] + gap + b) && j == i + |a|
    ensures Holds(s, i, a) && j < |s| && s[j] == c && Holds(s, j, [c] + gap) && Holds(s, j + 1 + |gap|, b)
    ensures |p| == |a| + 1 + |gap| + |b|
  {
    HoldsConcat(s, i, a, [c] + gap + b);
    SymbolParts(s, j, c, gap, b);
  }

  lemma {:induction false} BlockParts(s: Text, i: nat, c: Command, j: nat, k: nat)
    requires c.Block? && Holds(s, i, CommandText(c)) && j == i + 1 + |c.open| && k == j + |LineText(c.line)|
    ensures i < |s| && s[i] == '(' && Holds(s, i, ['('] + c.open) && Holds(s, j, LineText(c.line))
    ensures k < |s| && s[k] == ')' && Holds(s, k, [')'] + c.close) && Holds(s, k + 1 + |c.close|, ItemsText(c.redirs))
    ensures i + |CommandText(c)| == k + 1 + |c.close| + |ItemsText(c.redirs)|
  {
    var tail := [')'] + c.close + ItemsText(c.redirs);
    var rest := LineText(c.line) + tail;
    HoldsConcat(s, i, ['('] + c.open, rest);
    HoldsConcat(s, i, ['('], c.open);
    HoldsOne(s, i, '(');
    TextParts(s, j, rest, LineText(c.line), ')', c.close, ItemsText(c.redirs), k);
  }

  lemma {:induction false} BarParts(s: Text, i: nat, p: Pipeline, j: nat)
    requires p.Bar? && Holds(s, i, PipelineText(p)) && j == i + |CommandText(p.cmd)|
    ensures Holds(s, i, CommandText(p.cmd)) && j < |s| && s[j] == '|' && Holds(s, j, ['|'] + p.gap)
    ensures Holds(s, j + 1 + |p.gap|, PipelineText(p.rest))
    ensures i + |PipelineText(p)| == j + 1 + |p.gap| + |PipelineText(p.rest)|
  {
    TextParts(s, i, PipelineText(p), CommandText(p.cmd), '|', p.gap, PipelineText(p.rest), j);
  }

  lemma {:induction false} LineParts(s: Text, i: nat, l: Line, j: nat, k: nat)
    requires Holds(s, i, LineText(l)) && EndsLine(s, i + |LineText(l)|)
    requires j == i + |PipelineText(l.pipe)| && k == j + |BacksText(l.backs)|
    ensures Holds(s, i, PipelineText(l.pipe)) && Holds(s, j, BacksText(l.backs)) && EndsPipeline(s, j)
    ensures l.Last? ==> k == i + |LineText(l)|
    ensures l.Semi? ==>
      && k < |s| && s[k] == ';' && Holds(s, k, [';'] + l.gap) && Holds(s, k + 1 + |l.gap|, LineText(l.rest))
      && i + |LineText(l)| == k + 1 + |l.gap| + |LineText(l.rest)|
  {
    if l.Last? {
      HoldsConcat(s, i, PipelineText(l.pipe), BacksText(l.backs));
    } else {
      SemiParts(s, i, l, j, k);
    }
    if l.backs != [] {
      SymbolParts(s, j, '&', l.backs[0], BacksText(l.backs[1..]));
    }
  }

  lemma {:induction false} SemiParts(s: Text, i: nat, l: Line, j: nat, k: nat)
    requires l.Semi? && Holds(s, i, LineText(l))
    requires j == i + |PipelineText(l.pipe)| && k == j + |BacksText(l.backs)|
    ensures Holds(s, i, PipelineText(l.pipe)) && Holds(s, j, BacksText(l.backs))
    ensures k < |s| && s[k] == ';' && Holds(s, k, [';'] + l.gap) && Holds(s, k + 1 + |l.gap|, LineText(l.rest))
    ensures i + |LineText(l)| == k + 1 + |l.gap| + |LineText(l.rest)|
  {
    var rest := BacksText(l.backs) + ([';'] + l.gap + LineText(l.rest));
    HoldsConcat(s, i, PipelineText(l.pipe), rest);
    TextParts(s, j, rest, BacksText(l.backs), ';', l.gap, LineText(l.rest), k);
  }

  // ----- Where a part begins, a token does

  lemma {:induction false} CommandStarts(s: Text, i: nat, c: Command)
    requires CommandOk(c) && Holds(s, i, CommandText(c)) && EndsCommand(s, i + |CommandText(c)|)
    ensures NextAt(s, i) && (At(s, i) == '(' <==> c.Block?)
  {
    if c.Simple? {
      ItemsStart(s, i, c.items, i + |CommandText(c)|);
    } else {
      var j := i + 1 + |c.open|;
      BlockParts(s, i, c, j, j + |LineText(c.line)|);
    }
  }

  lemma {:induction false} PipelineStarts(s: Text, i: nat, p: Pipeline)
    requires PipelineOk(p) && Holds(s, i, PipelineText(p)) && EndsPipeline(s, i + |PipelineText(p)|)
    ensures NextAt(s, i)
  {
    if p.Bar? {
      BarParts(s, i, p, i + |CommandText(p.cmd)|);
    }
    CommandStarts(s, i, p.cmd);
  }

  lemma {:induction false} LineStarts(s: Text, i: nat, l: Line)
    requires LineOk(l) && Holds(s, i, LineText(l)) && EndsLine(s, i + |LineText(l)|)
    ensures NextAt(s, i)
  {
    var j := i + |PipelineText(l.pipe)|;
    LineParts(s, i, l, j, j + |BacksText(l.backs)|);
    PipelineStarts(s, i, l.pipe);
  }

  // ----- Reading

  lemma {:induction false} ReadSimple(s: Text, i: nat, c: Command)
    requires c.Simple? && CommandOk(c) && Holds(s, i, CommandText(c)) && EndsCommand(s, i + |CommandText(c)|)
    ensures ReadsAs(s, CommandMeans(c), i + |CommandText(c)|, ParseExec(s, i))
  {
    CommandStarts(s, i, c);
    assert ParseExec(s, i) == ArgsFrom(s, Exec([]), 0, i);
    ItemsRead(s, i, c.items, i + |CommandText(c)|);
  }

  lemma {:induction false} ReadOpen(s: Text, i: nat, open: Text, j: nat)
    requires Holds(s, i, ['('] + open) && Blank(open) && j == i + 1 + |open| && NextAt(s, j)
    ensures ParseExec(s, i) == BlockTail(s, i, ParseLine(s, j))
  {
    SymbolThen(s, i, '(', open, j);
  }

  lemma {:induction false} ReadClose(s: Text, i: nat, k: nat, r: Result, close: Text, e: nat)
    requires i <= k && Holds(s, k, [')'] + close) && Blank(close) && e == k + 1 + |close| && NextAt(s, e)
    requires r.Ok? && r.pos == k
    ensures BlockTail(s, i, r) == ParseRedirs(s, r.cmd, e)
  {
    SymbolThen(s, k, ')', close, e);
  }

  /** The redirections after a block read as t. */
  lemma {:induction false} ReadTail(s: Text, i: nat, t: Tree, r: Result, redirs: seq<Item>)
    requires r.Ok? && Spells(s, r.cmd, t) && ShortCommands(t) && ItemsOk(redirs) && AllFiles(redirs)
    requires Holds(s, i, ItemsText(redirs)) && EndsCommand(s, i + |ItemsText(redirs)|)
    ensures ReadsAs(s, Wrapped(t, redirs), i + |ItemsText(redirs)|, ParseRedirs(s, r.cmd, i))
  {
    ShortWrapped(t, redirs);
    RedirsRead(s, i, t, redirs, r.cmd);
  }

  /** A block, given how the line inside it is read. */
  lemma {:induction false} ReadBlock(s: Text, i: nat, t: Tree, k: nat, r: Result, close: Text, redirs: seq<Item>,
                                     m: nat)
    requires i <= k && ReadsAs(s, t, k, r)
    requires Holds(s, k, [')'] + close) && Blank(close) && ItemsOk(redirs) && AllFiles(redirs)
    requires m == k + 1 + |close| && Holds(s, m, ItemsText(redirs)) && EndsCommand(s, m + |ItemsText(redirs)|)
    ensures ReadsAs(s, Wrapped(t, redirs), m + |ItemsText(redirs)|, BlockTail(s, i, r))
  {
    ItemsStart(s, m, redirs, m + |ItemsText(redirs)|);
    if r.Ok? {
      ReadClose(s, i, k, r, close, m);
      ReadTail(s, m, t, r, redirs);
    } else {
      ShortWrapped(t, redirs);
    }
  }

  lemma {:induction false} ReadBar(s: Text, i: nat, p: Pipeline, j: nat, k: nat, r1: Result, r2: Result)
    requires p.Bar? && PipelineOk(p) && Holds(s, i, PipelineText(p)) && j == i + |CommandText(p.cmd)|
    requires k == j + 1 + |p.gap| <= |s| && NextAt(s, k) && i <= |s|
    requires ReadsAs(s, CommandMeans(p.cmd), j, r1) && ParseExec(s, i) == r1
    requires ReadsAs(s, PipelineMeans(p.rest), i + |PipelineText(p)|, r2) && ParsePipe(s, k) == r2
    ensures ReadsAs(s, PipelineMeans(p), i + |PipelineText(p)|, ParsePipe(s, i))
  {
    BarParts(s, i, p, j);
    SymbolThen(s, j, '|', p.gap, k);
    assert ParsePipe(s, i) == PipeTail(s, i, r1);
  }

  lemma {:induction false} ReadOne(s: Text, i: nat, t: Tree, e: nat, r: Result)
    requires i <= |s| && EndsPipeline(s, e) && ReadsAs(s, t, e, r) && ParseExec(s, i) == r
    ensures ReadsAs(s, t, e, ParsePipe(s, i))
  {
    assert ParsePipe(s, i) == PipeTail(s, i, r);
  }

  /** The '&'s, of which n are read. */
  lemma {:induction false} ReadBacks(s: Text, i: nat, c: Cmd<Span>, t: Tree, n: nat, backs: seq<Text>, e: nat)
    requires Holds(s, i, BacksText(backs)) && BacksOk(backs) && e == i + |BacksText(backs)|
    requires EndsPipeline(s, e) && (e < |s| ==> s[e] != '&') && Spells(s, c, InBack(t, n))
    ensures var r := ParseBacks(s, c, i); r.pos == e && Spells(s, r.cmd, InBack(t, n + |backs|))
    decreases |backs|
  {
    if backs != [] {
      var j, rest := i + 1 + |backs[0]|, backs[1..];
      SymbolParts(s, i, '&', backs[0], BacksText(rest));
      if rest != [] {
        SymbolParts(s, j, '&', rest[0], BacksText(rest[1..]));
      }
      SymbolThen(s, i, '&', backs[0], j);
      ReadBacks(s, j, Back(c), t, n + 1, rest, e);
    }
  }

  lemma {:induction false} ShortBacks(t: Tree, n: nat)
    ensures ShortCommands(InBack(t, n)) == ShortCommands(t)
  {
    if n != 0 {
      ShortBacks(t, n - 1);
    }
  }

  /** A pipeline at i, read as t1, and the '&'s after it. */
  lemma {:induction false} ReadLast(s: Text, i: nat, t: Tree, j: nat, r: Result, backs: seq<Text>, e: nat)
    requires i <= |s| && ParsePipe(s, i) == r && ReadsAs(s, t, j, r)
    requires Holds(s, j, BacksText(backs)) && BacksOk(backs) && e == j + |BacksText(backs)| && EndsLine(s, e)
    ensures ReadsAs(s, InBack(t, |backs|), e, ParseLine(s, i))
  {
    ShortBacks(t, |backs|);
    assert ParseLine(s, i) == LineTail(s, i, r);
    if r.Ok? {
      ReadBacks(s, j, r.cmd, t, 0, backs, e);
    }
  }

  /** The same before a ';' and a line at m, read as t2. */
  lemma {:induction false} ReadSemi(s: Text, i: nat, t: Tree, j: nat, r: Result, backs: seq<Text>, k: nat, gap: Text,
                                    m: nat, t2: Tree, e: nat, r2: Result)
    requires i <= |s| && ParsePipe(s, i) == r && ReadsAs(s, t, j, r)
    requires Holds(s, j, BacksText(backs)) && BacksOk(backs) && k == j + |BacksText(backs)|
    requires Holds(s, k, [';'] + gap) && Blank(gap) && m == k + 1 + |gap| && NextAt(s, m)
    requires ParseLine(s, m) == r2 && ReadsAs(s, t2, e, r2)
    ensures ReadsAs(s, List(InBack(t, |backs|), t2), e, ParseLine(s, i))
  {
    ShortBacks(t, |backs|);
    assert ParseLine(s, i) == LineTail(s, i, r);
    SymbolThen(s, k, ';', gap, m);
    if r.Ok? {
      ReadBacks(s, j, r.cmd, t, 0, backs, k);
    }
  }

  lemma {:induction false} BlockReads(s: Text, i: nat, c: Command, j: nat, k: nat)
    requires c.Block? && CommandOk(c) && Holds(s, i, CommandText(c)) && EndsCommand(s, i + |CommandText(c)|)
    requires j == i + 1 + |c.open| && k == j + |LineText(c.line)| && NextAt(s, j)
    requires ReadsAs(s, LineMeans(c.line), k, ParseLine(s, j))
    ensures ReadsAs(s, CommandMeans(c), i + |CommandText(c)|, ParseExec(s, i))
  {
    BlockParts(s, i, c, j, k);
    ReadOpen(s, i, c.open, j);
    var t, r, m := LineMeans(c.line), ParseLine(s, j), k + 1 + |c.close|;
    ReadBlock(s, i, t, k, r, c.close, c.redirs, m);
  }

  lemma {:induction false} CommandReads(s: Text, i: nat, c: Command)
    requires CommandOk(c) && Holds(s, i, CommandText(c)) && EndsCommand(s, i + |CommandText(c)|)
    ensures ReadsAs(s, CommandMeans(c), i + |CommandText(c)|, ParseExec(s, i))
    decreases c
  {
    if c.Simple? {
      ReadSimple(s, i, c);
    } else {
      var j := i + 1 + |c.open|;
      var k := j + |LineText(c.line)|;
      BlockParts(s, i, c, j, k);
      LineStarts(s, j, c.line);
      LineReads(s, j, c.line);
      BlockReads(s, i, c, j, k);
    }
  }

  lemma {:induction false} OneReads(s: Text, i: nat, p: Pipeline)
    requires p.One? && EndsPipeline(s, i + |CommandText(p.cmd)|) && i <= |s|
    requires ReadsAs(s, CommandMeans(p.cmd), i + |CommandText(p.cmd)|, ParseExec(s, i))
    ensures ReadsAs(s, PipelineMeans(p), i + |PipelineText(p)|, ParsePipe(s, i))
  {
    ReadOne(s, i, CommandMeans(p.cmd), i + |CommandText(p.cmd)|, ParseExec(s, i));
  }

  lemma {:induction false} RestReads(s: Text, i: nat, p: Pipeline, j: nat, k: nat)
    requires p.Bar? && PipelineOk(p) && Holds(s, i, PipelineText(p)) && EndsPipeline(s, i + |PipelineText(p)|)
    requires j == i + |CommandText(p.cmd)| && k == j + 1 + |p.gap|
    ensures NextAt(s, k) && ReadsAs(s, PipelineMeans(p.rest), i + |PipelineText(p)|, ParsePipe(s, k))
    decreases p, 0
  {
    BarParts(s, i, p, j);
    PipelineStarts(s, k, p.rest);
    PipelineReads(s, k, p.rest);
  }

  lemma {:induction false} FirstReads(s: Text, i: nat, p: Pipeline, j: nat)
    requires PipelineOk(p) && Holds(s, i, PipelineText(p)) && EndsPipeline(s, i + |PipelineText(p)|)
    requires j == i + |CommandText(p.cmd)|
    ensures i <= |s| && ReadsAs(s, CommandMeans(p.cmd), j, ParseExec(s, i))
    decreases p, 0
  {
    if p.Bar? {
      BarParts(s, i, p, j);
    }
    CommandReads(s, i, p.cmd);
  }

  lemma {:induction false} PipelineReads(s: Text, i: nat, p: Pipeline)
    requires PipelineOk(p) && Holds(s, i, PipelineText(p)) && EndsPipeline(s, i + |PipelineText(p)|)
    ensures ReadsAs(s, PipelineMeans(p), i + |PipelineText(p)|, ParsePipe(s, i))
    decreases p, 1
  {
    var j := i + |CommandText(p.cmd)|;
    FirstReads(s, i, p, j);
    if p.One? {
      OneReads(s, i, p);
    } else {
      var k := j + 1 + |p.gap|;
      RestReads(s, i, p, j, k);
      ReadBar(s, i, p, j, k, ParseExec(s, i), ParsePipe(s, k));
    }
  }

  lemma {:induction false} LastReads(s: Text, i: nat, l: Line, j: nat, e: nat)
    requires l.Last? && LineOk(l) && Holds(s, i, LineText(l)) && EndsLine(s, e) && e == i + |LineText(l)|
    requires j == i + |PipelineText(l.pipe)| && ReadsAs(s, PipelineMeans(l.pipe), j, ParsePipe(s, i))
    ensures ReadsAs(s, LineMeans(l), e, ParseLine(s, i))
  {
    HoldsConcat(s, i, PipelineText(l.pipe), BacksText(l.backs));
    ReadLast(s, i, PipelineMeans(l.pipe), j, ParsePipe(s, i), l.backs, e);
  }

  lemma {:induction false} SemiReads(s: Text, i: nat, l: Line, j: nat, k: nat, m: nat)
    requires l.Semi? && LineOk(l) && Holds(s, i, LineText(l)) && j == i + |PipelineText(l.pipe)|
    requires k == j + |BacksText(l.backs)| && m == k + 1 + |l.gap| && NextAt(s, m)
    requires ReadsAs(s, PipelineMeans(l.pipe), j, ParsePipe(s, i))
    requires ReadsAs(s, LineMeans(l.rest), m + |LineText(l.rest)|, ParseLine(s, m))
    ensures ReadsAs(s, LineMeans(l), i + |LineText(l)|, ParseLine(s, i))
  {
    SemiParts(s, i, l, j, k);
    ReadSemi(s, i, PipelineMeans(l.pipe), j, ParsePipe(s, i), l.backs, k, l.gap, m, LineMeans(l.rest),
             m + |LineText(l.rest)|, ParseLine(s, m));
  }

  lemma {:induction false} HeadReads(s: Text, i: nat, l: Line, j: nat)
    requires LineOk(l) && Holds(s, i, LineText(l)) && EndsLine(s, i + |LineText(l)|) && j == i + |PipelineText(l.pipe)|
    ensures i <= |s| && ReadsAs(s, PipelineMeans(l.pipe), j, ParsePipe(s, i))
    decreases l, 0
  {
    LineParts(s, i, l, j, j + |BacksText(l.backs)|);
    PipelineReads(s, i, l.pipe);
  }

  lemma {:induction false} NextReads(s: Text, i: nat, l: Line, m: nat)
    requires l.Semi? && LineOk(l) && Holds(s, i, LineText(l)) && EndsLine(s, i + |LineText(l)|)
    requires m == i + |PipelineText(l.pipe)| + |BacksText(l.backs)| + 1 + |l.gap|
    ensures NextAt(s, m) && ReadsAs(s, LineMeans(l.rest), m + |LineText(l.rest)|, ParseLine(s, m))
    decreases l, 0
  {
    var j := i + |PipelineText(l.pipe)|;
    SemiParts(s, i, l, j, j + |BacksText(l.backs)|);
    LineStarts(s, m, l.rest);
    LineReads(s, m, l.rest);
  }

  /** Wherever it stands, before a ')' or the end, a line is read as the tree it means. */
  lemma {:induction false} LineReads(s: Text, i: nat, l: Line)
    requires LineOk(l) && Holds(s, i, LineText(l)) && EndsLine(s, i + |LineText(l)|)
    ensures ReadsAs(s, LineMeans(l), i + |LineText(l)|, ParseLine(s, i))
    decreases l, 1
  {
    var j := i + |PipelineText(l.pipe)|;
    HeadReads(s, i, l, j);
    if l.Last? {
      LastReads(s, i, l, j, i + |LineText(l)|);
    } else {
      var k := j + |BacksText(l.backs)|;
      NextReads(s, i, l, k + 1 + |l.gap|);
      SemiReads(s, i, l, j, k, k + 1 + |l.gap|);
    }
  }

  // ----- Whole lines

  /** White space before a line does not matter. */
  lemma {:induction false} BlankBefore(s: Text, i: nat)
    requires i <= |s|
    ensures ParseLine(s, i) == ParseLine(s, Skip(s, i))
  {
    var j := Skip(s, i);
    var r := ParseExec(s, j);
    assert Skip(s, j) == j;
    assert ParseRedirs(s, Exec([]), i) == ParseRedirs(s, Exec([]), j);
    assert ParseExec(s, i) == r;
    assert PipeTail(s, i, r) == PipeTail(s, j, r);
    assert ParsePipe(s, i) == ParsePipe(s, j);
    assert LineTail(s, i, ParsePipe(s, j)) == LineTail(s, j, ParsePipe(s, j));
  }

  /** parsecmd on any line as people type it: commands of any number of words and
      redirections in any order, pipelines, lists, blocks and '&'s, with any white space.
      It builds the tree that the line means, unless a command is too long. */
  lemma {:induction false} TypedIsRead(gap: Text, l: Line)
    requires Blank(gap) && LineOk(l)
    ensures var s := gap + LineText(l);
            var r := ParseCmd(s);
            if ShortCommands(LineMeans(l)) then r.Ok? && Spells(s, r.cmd, LineMeans(l)) else r == Panic(TooManyArgs)
  {
    var s := gap + LineText(l);
    assert Holds(s, 0, s);
    HoldsConcat(s, 0, gap, LineText(l));
    LineStarts(s, |gap|, l);
    LineReads(s, |gap|, l);
    SkipsBlank(s, 0, gap);
    BlankBefore(s, 0);
  }
}
