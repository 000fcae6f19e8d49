/** The parser of sh.c: a cursor that moves over the line, and NULs written into
    it at the end. */
module Shell {
  import opened ShellSpec
  import opened ShellStrings
  import Grammar = ShellGrammar
  import Accepts = ShellAccepts

  /** What a parsing function returns, or the message it panics with. */
  datatype Parsed = Parsed(cmd: Cmd<Span>) | Panicked(error: Error)

  class Parser {
    /** The line and the NUL that ends it. */
    const buf: array<char>
    var pos: nat

    constructor (buf: array<char>)
      requires buf.Length > 0
      ensures this.buf == buf && pos == 0
    {
      this.buf, pos := buf, 0;
    }

    ghost predicate Valid()
      reads this, buf
    {
      buf.Length > 0 && pos <= buf.Length - 1 && buf[buf.Length - 1] == NUL && NoNul(buf[..buf.Length - 1])
    }

    ghost function Line(): (s: seq<char>)
      requires buf.Length > 0
      reads buf
    {
      buf[..buf.Length - 1]
    }

    /** r is the tree, the cursor standing at its end; or the complaint. */
    ghost predicate Is(p: Parsed, r: Result)
      reads this
    {
      if r.Ok? then p == Parsed(r.cmd) && pos == r.pos else p == Panicked(r.error)
    }

    /** The loop that skips white space. */
    method SkipSpace()
      requires Valid()
      modifies `pos
      ensures Valid() && pos == Skip(Line(), old(pos))
    {
      while pos < buf.Length - 1 && IsSpace(buf[pos])
        invariant Valid() && Skip(Line(), pos) == Skip(Line(), old(pos))
        decreases buf.Length - pos
      {
        pos := pos + 1;
      }
    }

    method SkipWord()
      requires Valid()
      modifies `pos
      ensures Valid() && pos == WordEnd(Line(), old(pos))
    {
      while pos < buf.Length - 1 && !IsSpace(buf[pos]) && !IsSymbol(buf[pos])
        invariant Valid() && WordEnd(Line(), pos) == WordEnd(Line(), old(pos))
        decreases buf.Length - pos
      {
        pos := pos + 1;
      }
    }

    /** gettoken. */
    method NextToken() returns (kind: char, q: nat, eq: nat)
      requires Valid()
      modifies `pos
      ensures Valid() && Token(kind, q, eq, pos) == GetToken(Line(), old(pos))
    {
      SkipSpace();
      q := pos;
      kind := buf[pos];
      assert kind == At(Line(), q);
      if kind == NUL {
      } else if kind == '>' {
        pos := pos + 1;
        assert buf[pos] == At(Line(), pos);
        if buf[pos] == '>' {
          kind := '+';
          pos := pos + 1;
        }
      } else if IsSymbol(kind) {
        pos := pos + 1;
      } else {
        kind := 'a';
        SkipWord();
      }
      eq := pos;
      SkipSpace();
    }

    /** peek: the next character, or NUL at the end. */
    method Peek() returns (c: char)
      requires Valid()
      modifies `pos
      ensures Valid() && pos == Skip(Line(), old(pos)) && c == At(Line(), pos)
    {
      SkipSpace();
      c := buf[pos];
    }

    /** The body of the loop of parseredirs. */
    method OneRedir(cmd: Cmd<Span>) returns (p: Parsed)
      requires Valid() && GetToken(Line(), pos).kind != NUL
      modifies `pos
      ensures Valid() && pos > old(pos)
      ensures var r := RedirTo(Line(), cmd, GetToken(Line(), old(pos)));
              if p.Parsed? then r == ParseRedirs(Line(), p.cmd, pos) else r == Panic(p.error)
    {
      var kind, _, _ := NextToken();
      var file, q, eq := NextToken();
      if file != 'a' {
        return Panicked(MissingFile);
      }
      p := Parsed(Redir(cmd, Span(q, eq), if kind == '<' then In else Out));
    }

    /** parseredirs. */
    method Redirs(cmd: Cmd<Span>) returns (p: Parsed)
      requires Valid()
      modifies `pos
      ensures Valid() && Is(p, ParseRedirs(Line(), cmd, old(pos)))
    {
      p := Parsed(cmd);
      ghost var all := ParseRedirs(Line(), cmd, pos);
      var next := Peek();
      while IsRedir(next)
        invariant Valid() && pos == Skip(Line(), pos) && next == At(Line(), pos)
        invariant p.Parsed? && ParseRedirs(Line(), p.cmd, pos) == all
        decreases buf.Length - pos
      {
        p := OneRedir(p.cmd);
        if p.Panicked? {
          return;
        }
        next := Peek();
      }
    }

    /** parseexec, for a command that is no block. */
    method Simple() returns (p: Parsed)
      requires Valid()
      modifies `pos
      ensures Valid() && Is(p, ParseSimple(Line(), old(pos)))
    {
      var argc := 0;
      p := Redirs(Exec([]));
      if p.Panicked? {
        return;
      }
      var next := Peek();
      while !EndsExec(next)
        invariant Valid() && pos == Skip(Line(), pos) && next == At(Line(), pos) && p.Parsed?
        invariant ParseArgs(Line(), p.cmd, argc, pos) == ParseSimple(Line(), old(pos))
        decreases buf.Length - pos
      {
        assert ParseArgs(Line(), p.cmd, argc, pos) == TakeArg(Line(), p.cmd, argc, GetToken(Line(), pos));
        var kind, q, eq := NextToken();
        if kind == NUL {
          return;
        }
        if kind != 'a' {
          return Panicked(Syntax);
        }
        argc := argc + 1;
        if argc >= MAXARGS {
          return Panicked(TooManyArgs);
        }
        p := Redirs(AddArg(p.cmd, Span(q, eq)));
        if p.Panicked? {
          return;
        }
        next := Peek();
      }
    }

    /** parseexec. */
    method Command() returns (p: Parsed)
      requires Valid()
      modifies `pos
      ensures Valid() && Is(p, ParseExec(Line(), old(pos)))
      decreases buf.Length - pos, 1
    {
      var next := Peek();
      if next == '(' {
        p := Block();
      } else {
        p := Simple();
      }
    }

    /** parseblock, called with the cursor on '('. */
    method Block() returns (p: Parsed)
      requires Valid() && buf[pos] == '('
      modifies `pos
      ensures Valid() && Is(p, ParseBlock(Line(), old(pos)))
      decreases buf.Length - pos, 0
    {
      assert At(Line(), pos) == '(';
      var _, _, _ := NextToken();
      p := Sequence();
      if p.Panicked? {
        return;
      }
      var next := Peek();
      if next != ')' {
        return Panicked(MissingParen);
      }
      var _, _, _ := NextToken();
      p := Redirs(p.cmd);
    }

    /** parsepipe. */
    method Pipeline() returns (p: Parsed)
      requires Valid()
      modifies `pos
      ensures Valid() && Is(p, ParsePipe(Line(), old(pos)))
      decreases buf.Length - pos, 2
    {
      p := Command();
      if p.Panicked? {
        return;
      }
      var next := Peek();
      if next == '|' {
        var _, _, _ := NextToken();
        var r := Pipeline();
        p := if r.Panicked? then r else Parsed(Pipe(p.cmd, r.cmd));
      }
    }

    /** The loop of parseline over '&'. */
    method Backs(cmd: Cmd<Span>) returns (c: Cmd<Span>)
      requires Valid()
      modifies `pos
      ensures Valid() && Ok(c, pos) == ParseBacks(Line(), cmd, old(pos))
    {
      c := cmd;
      var next := Peek();
      while next == '&'
        invariant Valid() && pos == Skip(Line(), pos) && next == At(Line(), pos)
        invariant ParseBacks(Line(), c, pos) == ParseBacks(Line(), cmd, old(pos))
        decreases buf.Length - pos
      {
        var _, _, _ := NextToken();
        c := Back(c);
        next := Peek();
      }
    }

    /** parseline. */
    method Sequence() returns (p: Parsed)
      requires Valid()
      modifies `pos
      ensures Valid() && Is(p, ParseLine(Line(), old(pos)))
      decreases buf.Length - pos, 3
    {
      p := Pipeline();
      assert ParseLine(Line(), old(pos)) == LineTail(Line(), old(pos), ParsePipe(Line(), old(pos)));
      if p.Panicked? {
        return;
      }
      var c := Backs(p.cmd);
      var next := Peek();
      p := Parsed(c);
      if next == ';' {
        var _, _, _ := NextToken();
        var r := Sequence();
        p := if r.Panicked? then r else Parsed(List(c, r.cmd));
      }
    }

    /** nulterminate. */
    method NulTerminate(c: Cmd<Span>)
      requires buf.Length > 0
      modifies buf
      ensures buf[..] == Ended(old(buf[..]), c)
      decreases c
    {
      match c
      case Exec(argv) =>
        var i := 0;
        while i < |argv|
          invariant 0 <= i <= |argv| && buf[..] == EndArgs(old(buf[..]), argv, i)
        {
          PutNulAt(argv[i].eq);
          i := i + 1;
        }
      case Redir(d, f, _) =>
        NulTerminate(d);
        PutNulAt(f.eq);
      case Pipe(l, r) =>
        NulTerminate(l);
        NulTerminate(r);
      case List(l, r) =>
        NulTerminate(l);
        NulTerminate(r);
      case Back(d) =>
        NulTerminate(d);
    }

    method PutNulAt(i: nat)
      modifies buf
      ensures buf[..] == PutNul(old(buf[..]), i)
    {
      if i < buf.Length {
        buf[i] := NUL;
      }
    }

    /** parsecmd.  It accepts just the lines that may be typed, without a command of ten
        words; the tree it returns is the one the line means, and its strings are the
        tokens of the line. */
    method Cmd() returns (p: Parsed)
      requires Valid() && pos == 0
      modifies `pos, buf
      ensures p.Parsed? <==>
              exists gap, l :: Accepts.Typed(old(Line()), gap, l) && Grammar.ShortCommands(Grammar.LineMeans(l))
      ensures forall gap, l :: Accepts.Typed(old(Line()), gap, l) && p.Parsed? ==>
                Grammar.Spells(old(Line()), p.cmd, Grammar.LineMeans(l))
      ensures if ParseCmd(old(Line())).Ok? then p == Parsed(ParseCmd(old(Line())).cmd)
              && AllStrings(buf[..], old(Line()), p.cmd)
              else p == Panicked(ParseCmd(old(Line())).error)
    {
      Accepts.AcceptsExactly(Line());
      p := Sequence();
      if p.Panicked? {
        return;
      }
      var _ := Peek();
      if pos != buf.Length - 1 {
        return Panicked(Leftovers);
      }
      ParsedStrings(Line());
      assert buf[..] == Line() + [NUL];
      NulTerminate(p.cmd);
    }
  }
}
