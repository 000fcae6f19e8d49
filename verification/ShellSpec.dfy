/** What the parser of sh.c computes: a command tree over positions of the input
    line.  The line holds no NUL; reading just past it gives one. */
module ShellSpec {

  const MAXARGS: nat := 10

  /** A word of the line: positions [q, eq). */
  datatype Span = Span(q: nat, eq: nat)

  datatype Mode = In | Out

  /** fd and open mode of a redirection: `<` reads into 0, `>` creates for 1. */
  datatype Cmd<W> =
    | Exec(argv: seq<W>)
    | Redir(cmd: Cmd<W>, file: W, mode: Mode)
    | Pipe(left: Cmd<W>, right: Cmd<W>)
    | List(left: Cmd<W>, right: Cmd<W>)
    | Back(cmd: Cmd<W>)

  datatype Error = MissingFile | MissingParen | Syntax | TooManyArgs | Leftovers

  /** A tree and the position reached, or the shell's complaint. */
  datatype Result = Ok(cmd: Cmd<Span>, pos: nat) | Panic(error: Error)

  const NUL: char := '\0'

  predicate IsSpace(c: char) {
    c == ' ' || c == '\t' || c == '\r' || c == '\n' || c == '\U{000B}'
  }

  predicate IsSymbol(c: char) {
    c == '<' || c == '|' || c == '>' || c == '&' || c == ';' || c == '(' || c == ')'
  }

  predicate IsWord(c: char) {
    !IsSpace(c) && !IsSymbol(c) && c != NUL
  }

  function At(s: seq<char>, i: nat): (c: char) {
    if i < |s| then s[i] else NUL
  }

  // ----- Tokens

  function Skip(s: seq<char>, i: nat): (j: nat)
    requires i <= |s|
    ensures i <= j <= |s| && !IsSpace(At(s, j))
    decreases |s| - i
  {
    if i < |s| && IsSpace(s[i]) then Skip(s, i + 1) else i
  }

  function WordEnd(s: seq<char>, i: nat): (j: nat)
    requires i <= |s|
    ensures i <= j <= |s|
    decreases |s| - i
  {
    if i < |s| && !IsSpace(s[i]) && !IsSymbol(s[i]) then WordEnd(s, i + 1) else i
  }

  /** A token of the given kind at [q, eq); the cursor goes to next.  The kinds are
      NUL at the end of the line, the symbols, '+' for >> and 'a' for a word. */
  datatype Token = Token(kind: char, q: nat, eq: nat, next: nat)

  function TokenKind(s: seq<char>, q: nat): (c: char)
    requires q <= |s|
  {
    var c := At(s, q);
    if c == '>' && At(s, q + 1) == '>' then '+'
    else if c == NUL || IsSymbol(c) then c
    else 'a'
  }

  function TokenEnd(s: seq<char>, q: nat): (eq: nat)
    requires q <= |s| && !IsSpace(At(s, q))
    ensures q <= eq <= |s| && (TokenKind(s, q) != NUL ==> q < eq)
  {
    var c := At(s, q);
    if c == NUL then q
    else if c == '>' && At(s, q + 1) == '>' then q + 2
    else if IsSymbol(c) then q + 1
    else WordEnd(s, q)
  }

  function GetToken(s: seq<char>, i: nat): (t: Token)
    requires i <= |s|
    ensures i <= t.q <= t.eq <= t.next <= |s| && (t.kind != NUL ==> t.q < t.eq)
  {
    var q := Skip(s, i);
    var eq := TokenEnd(s, q);
    Token(TokenKind(s, q), q, eq, Skip(s, eq))
  }

  // ----- The grammar

  predicate IsRedir(c: char) {
    c == '<' || c == '>'
  }

  /** What ends a simple command. */
  predicate EndsExec(c: char) {
    c == '|' || c == ')' || c == '&' || c == ';'
  }

  function ParseRedirs(s: seq<char>, cmd: Cmd<Span>, i: nat): (r: Result)
    requires i <= |s|
    ensures r.Ok? ==> i <= r.pos <= |s| && !IsSpace(At(s, r.pos))
    decreases |s| - i, 1
  {
    var i := Skip(s, i);
    if IsRedir(At(s, i)) then RedirTo(s, cmd, GetToken(s, i)) else Ok(cmd, i)
  }

  /** The body of the loop of parseredirs, with the symbol t read. */
  function RedirTo(s: seq<char>, cmd: Cmd<Span>, t: Token): (r: Result)
    requires t.q < t.next <= |s|
    ensures r.Ok? ==> t.q <= r.pos <= |s| && !IsSpace(At(s, r.pos))
    decreases |s| - t.q, 0
  {
    var f := GetToken(s, t.next);
    if f.kind == 'a' then ParseRedirs(s, Redir(cmd, Span(f.q, f.eq), if t.kind == '<' then In else Out), f.next)
    else Panic(MissingFile)
  }

  /** The word goes into the simple command inside the redirections around it. */
  function AddArg<W>(cmd: Cmd<W>, w: W): (r: Cmd<W>) {
    match cmd
    case Exec(argv) => Exec(argv + [w])
    case Redir(c, f, m) => Redir(AddArg(c, w), f, m)
    case _ => cmd
  }

  /** The loop of parseexec, with argc words read. */
  function ParseArgs(s: seq<char>, cmd: Cmd<Span>, argc: nat, i: nat): (r: Result)
    requires i <= |s|
    ensures r.Ok? ==> i <= r.pos <= |s|
    decreases |s| - i, 1
  {
    var i := Skip(s, i);
    if EndsExec(At(s, i)) then Ok(cmd, i) else TakeArg(s, cmd, argc, GetToken(s, i))
  }

  /** The body of that loop, with token t read. */
  function TakeArg(s: seq<char>, cmd: Cmd<Span>, argc: nat, t: Token): (r: Result)
    requires t.q <= t.eq <= t.next <= |s| && (t.kind != NUL ==> t.q < t.eq)
    ensures r.Ok? ==> t.q <= r.pos <= |s|
    decreases |s| - t.q, 0
  {
    if t.kind == NUL then Ok(cmd, t.next)
    else if t.kind != 'a' then Panic(Syntax)
    else if argc + 1 >= MAXARGS then Panic(TooManyArgs)
    else
      var r := ParseRedirs(s, AddArg(cmd, Span(t.q, t.eq)), t.next);
      if r.Panic? then r else ParseArgs(s, r.cmd, argc + 1, r.pos)
  }

  function ParseExec(s: seq<char>, i: nat): (r: Result)
    requires i <= |s|
    ensures r.Ok? ==> i <= r.pos <= |s|
    decreases |s| - i, 1
  {
    var i := Skip(s, i);
    if At(s, i) == '(' then ParseBlock(s, i) else ParseSimple(s, i)
  }

  function ParseSimple(s: seq<char>, i: nat): (r: Result)
    requires i <= |s|
    ensures r.Ok? ==> i <= r.pos <= |s|
  {
    match ParseRedirs(s, Exec([]), i)
    case Panic(e) => Panic(e)
    case Ok(c, j) => ParseArgs(s, c, 0, j)
  }

  /** The cursor is on '('. */
  function ParseBlock(s: seq<char>, i: nat): (r: Result)
    requires i < |s| && s[i] == '('
    ensures r.Ok? ==> i <= r.pos <= |s|
    decreases |s| - i, 0
  {
    BlockTail(s, i, ParseLine(s, GetToken(s, i).next))
  }

  /** parseblock, after the line inside the parentheses. */
  function BlockTail(s: seq<char>, i: nat, line: Result): (r: Result)
    requires line.Ok? ==> i <= line.pos <= |s|
    ensures r.Ok? ==> i <= r.pos <= |s|
  {
    if line.Panic? then line
    else
      var j := Skip(s, line.pos);
      if At(s, j) == ')' then ParseRedirs(s, line.cmd, GetToken(s, j).next) else Panic(MissingParen)
  }

  function ParsePipe(s: seq<char>, i: nat): (r: Result)
    requires i <= |s|
    ensures r.Ok? ==> i <= r.pos <= |s|
    decreases |s| - i, 3
  {
    PipeTail(s, i, ParseExec(s, i))
  }

  /** parsepipe, after its first command. */
  function PipeTail(s: seq<char>, i: nat, first: Result): (r: Result)
    requires i <= |s| && (first.Ok? ==> i <= first.pos <= |s|)
    ensures r.Ok? ==> i <= r.pos <= |s|
    decreases |s| - i, 2
  {
    if first.Panic? then first
    else
      var j := Skip(s, first.pos);
      if At(s, j) != '|' then Ok(first.cmd, j)
      else
        var rest := ParsePipe(s, GetToken(s, j).next);
        if rest.Panic? then rest else Ok(Pipe(first.cmd, rest.cmd), rest.pos)
  }

  /** The '&'s after a pipeline. */
  function ParseBacks(s: seq<char>, cmd: Cmd<Span>, i: nat): (r: Result)
    requires i <= |s|
    ensures r.Ok? && i <= r.pos <= |s| && !IsSpace(At(s, r.pos))
    decreases |s| - i
  {
    var i := Skip(s, i);
    if At(s, i) != '&' then Ok(cmd, i)
    else ParseBacks(s, Back(cmd), GetToken(s, i).next)
  }

  function ParseLine(s: seq<char>, i: nat): (r: Result)
    requires i <= |s|
    ensures r.Ok? ==> i <= r.pos <= |s|
    decreases |s| - i, 5
  {
    LineTail(s, i, ParsePipe(s, i))
  }

  /** parseline, after its first pipeline. */
  function LineTail(s: seq<char>, i: nat, first: Result): (r: Result)
    requires i <= |s| && (first.Ok? ==> i <= first.pos <= |s|)
    ensures r.Ok? ==> i <= r.pos <= |s|
    decreases |s| - i, 4
  {
    if first.Panic? then first
    else
      var b := ParseBacks(s, first.cmd, first.pos);
      if At(s, b.pos) != ';' then b
      else
        var rest := ParseLine(s, GetToken(s, b.pos).next);
        if rest.Panic? then rest else Ok(List(b.cmd, rest.cmd), rest.pos)
  }

  function ParseCmd(s: seq<char>): (r: Result) {
    match ParseLine(s, 0)
    case Panic(e) => Panic(e)
    case Ok(c, j) => if Skip(s, j) == |s| then Ok(c, |s|) else Panic(Leftovers)
  }
}
