/**
  The grammar of sh.c on tokens: what the parser gives for every token sequence, how a
  command is written as tokens, and that parsing undoes writing. `W` is what stands for a
  word: its text, or where it is in the line.
 */
module ShellModel {

  const MAXARGS := 10

  datatype Kind = In | Out

  datatype Redirection<W> = Redirection(kind: Kind, file: W)

  datatype Cmd<W> =
    | Exec(argv: seq<W>)
    | Redir(cmd: Cmd<W>, r: Redirection<W>)
    | Pipe(left: Cmd<W>, right: Cmd<W>)
    | List(left: Cmd<W>, right: Cmd<W>)
    | Back(cmd: Cmd<W>)

  /** `Sym('+')` is the token for two greater-than signs. */
  datatype Tok<W> = Sym(c: char) | Word(w: W)

  /** The panics of the parser. */
  datatype Error = MissingFile | TooManyArgs | Syntax | MissingParen | Leftovers

  datatype Result<W> = Ok(cmd: Cmd<W>, rest: seq<Tok<W>>) | Err(e: Error)

  datatype Redirs<W> = Redirs(rs: seq<Redirection<W>>, rest: seq<Tok<W>>) | NoFile

  predicate Starts<W>(toks: seq<Tok<W>>, cs: set<char>) {
    toks != [] && toks[0].Sym? && toks[0].c in cs
  }

  /** Redirections go around a command, the first one innermost. */
  function Wrap<W>(c: Cmd<W>, rs: seq<Redirection<W>>): Cmd<W> {
    if rs == [] then c else Redir(Wrap(c, rs[..|rs| - 1]), rs[|rs| - 1])
  }

  // ---------------------------------------------------------------------------
  // The parser

  function ParseRedirs<W>(rs: seq<Redirection<W>>, toks: seq<Tok<W>>): (r: Redirs<W>)
    ensures r.Redirs? ==> |r.rest| <= |toks|
    decreases |toks|
  {
    if !Starts(toks, {'<', '>', '+'}) then Redirs(rs, toks)
    else if |toks| < 2 || !toks[1].Word? then NoFile
    else ParseRedirs(rs + [Redirection(if toks[0].c == '<' then In else Out, toks[1].w)], toks[2..])
  }

  /** The loop of parseexec, with the words and redirections seen so far. */
  function ParseArgs<W>(argv: seq<W>, rs: seq<Redirection<W>>, toks: seq<Tok<W>>): (r: Result<W>)
    ensures r.Ok? ==> |r.rest| <= |toks|
    decreases |toks|
  {
    if toks == [] || Starts(toks, {'|', ')', '&', ';'}) then Ok(Wrap(Exec(argv), rs), toks)
    else if !toks[0].Word? then Err(Syntax)
    else if |argv| + 1 >= MAXARGS then Err(TooManyArgs)
    else
      match ParseRedirs(rs, toks[1..])
      case NoFile => Err(MissingFile)
      case Redirs(rs2, rest) => ParseArgs(argv + [toks[0].w], rs2, rest)
  }

  function ParseExec<W>(toks: seq<Tok<W>>): (r: Result<W>)
    ensures r.Ok? ==> |r.rest| <= |toks|
    decreases |toks|, 1
  {
    if Starts(toks, {'('}) then ParseBlock(toks)
    else
      match ParseRedirs([], toks)
      case NoFile => Err(MissingFile)
      case Redirs(rs, rest) => ParseArgs([], rs, rest)
  }

  function ParseBlock<W>(toks: seq<Tok<W>>): (r: Result<W>)
    requires Starts(toks, {'('})
    ensures r.Ok? ==> |r.rest| <= |toks|
    decreases |toks|, 0
  {
    match ParseLine(toks[1..])
    case Err(e) => Err(e)
    case Ok(c, rest) =>
      if !Starts(rest, {')'}) then Err(MissingParen)
      else
        match ParseRedirs([], rest[1..])
        case NoFile => Err(MissingFile)
        case Redirs(rs, rest2) => Ok(Wrap(c, rs), rest2)
  }

  function ParsePipe<W>(toks: seq<Tok<W>>): (r: Result<W>)
    ensures r.Ok? ==> |r.rest| <= |toks|
    decreases |toks|, 2
  {
    match ParseExec(toks)
    case Err(e) => Err(e)
    case Ok(c, rest) =>
      if !Starts(rest, {'|'}) then Ok(c, rest)
      else
        match ParsePipe(rest[1..])
        case Err(e) => Err(e)
        case Ok(d, rest2) => Ok(Pipe(c, d), rest2)
  }

  /** The loop of parseline over ampersands. */
  function ParseBacks<W>(c: Cmd<W>, toks: seq<Tok<W>>): (Cmd<W>, seq<Tok<W>>)
    decreases |toks|
  {
    if Starts(toks, {'&'}) then ParseBacks(Back(c), toks[1..]) else (c, toks)
  }

  lemma BacksShorter<W>(c: Cmd<W>, toks: seq<Tok<W>>)
    ensures |ParseBacks(c, toks).1| <= |toks|
    decreases |toks|
  {
    if Starts(toks, {'&'}) {
      BacksShorter(Back(c), toks[1..]);
    }
  }

  function ParseLine<W>(toks: seq<Tok<W>>): (r: Result<W>)
    ensures r.Ok? ==> |r.rest| <= |toks|
    decreases |toks|, 3
  {
    match ParsePipe(toks)
    case Err(e) => Err(e)
    case Ok(c, rest) =>
      BacksShorter(c, rest);
      var b := ParseBacks(c, rest);
      if !Starts(b.1, {';'}) then Ok(b.0, b.1)
      else
        match ParseLine(b.1[1..])
        case Err(e) => Err(e)
        case Ok(d, rest2) => Ok(List(b.0, d), rest2)
  }

  function ParseCmd<W>(toks: seq<Tok<W>>): Result<W> {
    match ParseLine(toks)
    case Err(e) => Err(e)
    case Ok(c, rest) => if rest != [] then Err(Leftovers) else Ok(c, rest)
  }

  /** The parts of an accepted simple command. */
  lemma ExecParts<W>(toks: seq<Tok<W>>)
    requires !Starts(toks, {'('})
    ensures ParseRedirs([], toks).NoFile? ==> ParseExec(toks) == Err(MissingFile)
    ensures ParseRedirs([], toks).Redirs? ==>
              ParseExec(toks) == ParseArgs([], ParseRedirs([], toks).rs, ParseRedirs([], toks).rest)
  {
  }

  /** The parts of an accepted block. */
  lemma BlockParts<W>(toks: seq<Tok<W>>)
    requires Starts(toks, {'('}) && ParseBlock(toks).Ok?
    ensures var l := ParseLine(toks[1..]);
            && l.Ok? && Starts(l.rest, {')'}) && ParseRedirs([], l.rest[1..]).Redirs?
            && ParseBlock(toks) == Ok(Wrap(l.cmd, ParseRedirs([], l.rest[1..]).rs), ParseRedirs([], l.rest[1..]).rest)
            && ParseExec(toks) == ParseBlock(toks)
  {
  }

  // ---------------------------------------------------------------------------
  // Writing a command

  /** Inside all redirections. */
  function Core<W>(c: Cmd<W>): (d: Cmd<W>)
    ensures !d.Redir?
  {
    if c.Redir? then Core(c.cmd) else c
  }

  function RedirsOf<W>(c: Cmd<W>): seq<Redirection<W>> {
    if c.Redir? then RedirsOf(c.cmd) + [c.r] else []
  }

  function WriteRedirs<W>(rs: seq<Redirection<W>>): seq<Tok<W>> {
    if rs == [] then [] else [Sym(if rs[0].kind == In then '<' else '>'), Word(rs[0].file)] + WriteRedirs(rs[1..])
  }

  function WriteArgs<W>(argv: seq<W>): seq<Tok<W>> {
    if argv == [] then [] else [Word(argv[0])] + WriteArgs(argv[1..])
  }

  lemma {:induction c} CoreSmaller<W>(c: Cmd<W>)
    requires c.Redir?
    ensures Core(c) < c
  {
  }

  function WriteExec<W>(c: Cmd<W>): seq<Tok<W>>
    decreases c, 1
  {
    if Core(c).Exec? then WriteArgs(Core(c).argv) + WriteRedirs(RedirsOf(c))
    else if c.Redir? then
      CoreSmaller(c);
      [Sym('(')] + WriteLine(Core(c)) + [Sym(')')] + WriteRedirs(RedirsOf(c))
    else [Sym('(')] + WriteInner(c) + [Sym(')')]
  }

  function WriteInner<W>(c: Cmd<W>): seq<Tok<W>>
    requires c.Pipe? || c.List? || c.Back?
    decreases c, 0
  {
    match c
    case List(l, r) => WriteBack(l) + [Sym(';')] + WriteLine(r)
    case Back(d) => WriteBack(d) + [Sym('&')]
    case Pipe(l, r) => WriteExec(l) + [Sym('|')] + WritePipe(r)
  }

  function WritePipe<W>(c: Cmd<W>): seq<Tok<W>>
    decreases c, 2
  {
    if c.Pipe? then WriteInner(c) else WriteExec(c)
  }

  function WriteBack<W>(c: Cmd<W>): seq<Tok<W>>
    decreases c, 3
  {
    if c.Back? then WriteInner(c) else WritePipe(c)
  }

  function WriteLine<W>(c: Cmd<W>): seq<Tok<W>>
    decreases c, 4
  {
    if c.List? then WriteInner(c) else WriteBack(c)
  }

  /** What the shell can hold: at most nine arguments. */
  predicate Fits<W>(c: Cmd<W>) {
    match c
    case Exec(argv) => |argv| < MAXARGS
    case Redir(d, _) => Fits(d)
    case Pipe(l, r) => Fits(l) && Fits(r)
    case List(l, r) => Fits(l) && Fits(r)
    case Back(d) => Fits(d)
  }
}
