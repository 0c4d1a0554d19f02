/** Parsing the tokens a command is written as gives the command back. */
module ShellRoundTrip {
  import opened ShellModel

  lemma {:induction false} RedirsBack<W>(rs0: seq<Redirection<W>>, rs: seq<Redirection<W>>, rest: seq<Tok<W>>)
    requires !Starts(rest, {'<', '>', '+'})
    ensures ParseRedirs(rs0, WriteRedirs(rs) + rest) == Redirs(rs0 + rs, rest)
    decreases |rs|
  {
    if rs == [] {
      assert WriteRedirs(rs) + rest == rest && rs0 + rs == rs0;
    } else {
      var toks := WriteRedirs(rs) + rest;
      assert toks[2..] == WriteRedirs(rs[1..]) + rest;
      RedirsBack(rs0 + [rs[0]], rs[1..], rest);
      assert rs0 + [rs[0]] + rs[1..] == rs0 + rs;
    }
  }

  predicate StopsExec<W>(rest: seq<Tok<W>>) {
    rest == [] || Starts(rest, {'|', ')', '&', ';'})
  }

  predicate StopsPipe<W>(rest: seq<Tok<W>>) {
    rest == [] || Starts(rest, {')', '&', ';'})
  }

  predicate StopsLine<W>(rest: seq<Tok<W>>) {
    rest == [] || Starts(rest, {')'})
  }

  lemma {:induction false} ArgsBack<W>(argv0: seq<W>, argv: seq<W>, rs0: seq<Redirection<W>>, rs: seq<Redirection<W>>,
                                       rest: seq<Tok<W>>)
    requires StopsExec(rest) && |argv0| + |argv| < MAXARGS && (argv == [] ==> rs == [])
    ensures ParseArgs(argv0, rs0, WriteArgs(argv) + WriteRedirs(rs) + rest) ==
            Ok(Wrap(Exec(argv0 + argv), rs0 + rs), rest)
    decreases |argv|
  {
    var toks := WriteArgs(argv) + WriteRedirs(rs) + rest;
    if argv == [] {
      assert toks == rest && argv0 + argv == argv0 && rs0 + rs == rs0;
    } else {
      var tail := WriteArgs(argv[1..]) + WriteRedirs(rs) + rest;
      assert toks[1..] == tail && toks[0] == Word(argv[0]);
      assert argv0 + [argv[0]] + argv[1..] == argv0 + argv;
      if |argv| == 1 {
        assert tail == WriteRedirs(rs) + rest && argv0 + [argv[0]] == argv0 + argv;
        RedirsBack(rs0, rs, rest);
      } else {
        assert tail[0] == Word(argv[1]);
        assert ParseRedirs(rs0, tail) == Redirs(rs0, tail);
        ArgsBack(argv0 + [argv[0]], argv[1..], rs0, rs, rest);
      }
    }
  }

  lemma {:induction false} Unwrapped<W>(c: Cmd<W>)
    ensures Wrap(Core(c), RedirsOf(c)) == c
  {
    if c.Redir? {
      Unwrapped(c.cmd);
      var rs := RedirsOf(c);
      assert rs[..|rs| - 1] == RedirsOf(c.cmd);
    }
  }

  lemma {:induction c} CoreFits<W>(c: Cmd<W>)
    requires Fits(c)
    ensures Fits(Core(c))
  {
  }

  lemma {:induction false} ExecBack<W>(c: Cmd<W>, rest: seq<Tok<W>>)
    requires Fits(c) && StopsExec(rest)
    ensures ParseExec(WriteExec(c) + rest) == Ok(c, rest)
    decreases c, 2
  {
    hide ParseExec, ParseLine, WriteLine, WriteInner, Wrap, WriteRedirs, WriteArgs;
    Unwrapped(c);
    CoreFits(c);
    var d, rs := Core(c), RedirsOf(c);
    if d.Exec? {
      SimpleBack(d.argv, rs, rest);
    } else {
      if c.Redir? {
        CoreSmaller(c);
        LineBack(d, [Sym(')')] + WriteRedirs(rs) + rest);
        assert WriteExec(c) + rest == [Sym('(')] + (WriteLine(d) + ([Sym(')')] + WriteRedirs(rs) + rest));
      } else {
        InnerBack(c, [Sym(')')] + rest);
        assert WriteExec(c) + rest == [Sym('(')] + (WriteInner(c) + ([Sym(')')] + rest));
        NoRedirs(rs, rest);
      }
      BlockBack(d, rs, WriteExec(c) + rest, rest);
    }
  }

  lemma NoRedirs<W>(rs: seq<Redirection<W>>, rest: seq<Tok<W>>)
    requires rs == []
    ensures [Sym(')')] + WriteRedirs(rs) + rest == [Sym(')')] + rest
  {
  }

  lemma NoneToParse<W>(toks: seq<Tok<W>>)
    requires !Starts(toks, {'<', '>', '+'})
    ensures ParseRedirs([], toks) == Redirs([], toks)
  {
  }

  lemma ExecStep<W>(toks: seq<Tok<W>>, rs: seq<Redirection<W>>, rest: seq<Tok<W>>)
    requires !Starts(toks, {'('}) && ParseRedirs([], toks) == Redirs(rs, rest)
    ensures ParseExec(toks) == ParseArgs([], rs, rest)
  {
  }

  lemma SimpleBack<W>(argv: seq<W>, rs: seq<Redirection<W>>, rest: seq<Tok<W>>)
    requires StopsExec(rest) && |argv| < MAXARGS
    ensures ParseExec(WriteArgs(argv) + WriteRedirs(rs) + rest) == Ok(Wrap(Exec(argv), rs), rest)
  {
    hide ParseArgs, ParseExec, ParseRedirs, Wrap;
    if argv == [] {
      RedirsOnly(rs, rest);
      assert WriteArgs(argv) + WriteRedirs(rs) + rest == WriteRedirs(rs) + rest;
    } else {
      var toks := WriteArgs(argv) + WriteRedirs(rs) + rest;
      assert toks[0] == Word(argv[0]);
      NoneToParse(toks);
      ExecStep(toks, [], toks);
      ArgsBack([], argv, [], rs, rest);
      assert [] + argv == argv && [] + rs == rs;
    }
  }

  lemma RedirsOnly<W>(rs: seq<Redirection<W>>, rest: seq<Tok<W>>)
    requires StopsExec(rest)
    ensures ParseExec(WriteRedirs(rs) + rest) == Ok(Wrap(Exec([]), rs), rest)
  {
    hide ParseRedirs, ParseExec;
    var toks := WriteRedirs(rs) + rest;
    assert rs != [] ==> toks[0] == Sym(if rs[0].kind == In then '<' else '>');
    RedirsBack([], rs, rest);
    assert [] + rs == rs;
    ExecStep(toks, rs, rest);
  }

  lemma BlockBack<W>(d: Cmd<W>, rs: seq<Redirection<W>>, toks: seq<Tok<W>>, rest: seq<Tok<W>>)
    requires StopsExec(rest) && Starts(toks, {'('})
    requires ParseLine(toks[1..]) == Ok(d, [Sym(')')] + WriteRedirs(rs) + rest)
    ensures ParseExec(toks) == Ok(Wrap(d, rs), rest)
  {
    var after := [Sym(')')] + WriteRedirs(rs) + rest;
    assert after[1..] == WriteRedirs(rs) + rest;
    RedirsBack([], rs, rest);
    assert [] + rs == rs;
  }

  lemma {:induction false} PipeBack<W>(c: Cmd<W>, rest: seq<Tok<W>>)
    requires Fits(c) && StopsPipe(rest)
    ensures ParsePipe(WritePipe(c) + rest) == Ok(c, rest)
    decreases c, 3
  {
    if c.Pipe? {
      PipesBack(c, rest);
    } else {
      ExecBack(c, rest);
    }
  }

  lemma {:induction false} PipesBack<W>(c: Cmd<W>, rest: seq<Tok<W>>)
    requires Fits(c) && StopsPipe(rest) && c.Pipe?
    ensures ParsePipe(WriteInner(c) + rest) == Ok(c, rest)
    decreases c, 0
  {
    hide ParsePipe, ParseExec, WriteExec, WritePipe;
    var more := [Sym('|')] + WritePipe(c.right) + rest;
    ExecBack(c.left, more);
    PipeBack(c.right, rest);
    assert WriteInner(c) + rest == WriteExec(c.left) + more;
    assert more[1..] == WritePipe(c.right) + rest;
    PipeStep(WriteInner(c) + rest, c.left, more, c.right, rest);
  }

  lemma PipeStep<W>(toks: seq<Tok<W>>, l: Cmd<W>, more: seq<Tok<W>>, r: Cmd<W>, rest: seq<Tok<W>>)
    requires ParseExec(toks) == Ok(l, more) && Starts(more, {'|'}) && ParsePipe(more[1..]) == Ok(r, rest)
    ensures ParsePipe(toks) == Ok(Pipe(l, r), rest)
  {
  }

  /** The commands that parsepipe gives, then the ampersands. */
  lemma {:induction false} BacksBack<W>(c: Cmd<W>, rest: seq<Tok<W>>) returns (d: Cmd<W>, amps: seq<Tok<W>>)
    requires Fits(c) && StopsPipe(rest)
    ensures ParsePipe(WriteBack(c) + rest) == Ok(d, amps)
    ensures ParseBacks(d, amps) == ParseBacks(c, rest)
    decreases c, 4
  {
    if c.Back? {
      var more := [Sym('&')] + rest;
      d, amps := BacksBack(c.cmd, more);
      assert WriteBack(c) + rest == WriteBack(c.cmd) + more;
      assert more[1..] == rest;
    } else {
      PipeBack(c, rest);
      d, amps := c, rest;
    }
  }

  lemma {:induction false} LineBack<W>(c: Cmd<W>, rest: seq<Tok<W>>)
    requires Fits(c) && StopsLine(rest)
    ensures ParseLine(WriteLine(c) + rest) == Ok(c, rest)
    decreases c, 5
  {
    if c.List? {
      ListBack(c, rest);
    } else {
      var d, amps := BacksBack(c, rest);
      assert ParseBacks(c, rest) == (c, rest);
    }
  }

  lemma {:induction false} ListBack<W>(c: Cmd<W>, rest: seq<Tok<W>>)
    requires Fits(c) && StopsLine(rest) && c.List?
    ensures ParseLine(WriteInner(c) + rest) == Ok(c, rest)
    decreases c, 0
  {
    var more := [Sym(';')] + WriteLine(c.right) + rest;
    var d, amps := BacksBack(c.left, more);
    LineBack(c.right, rest);
    assert WriteInner(c) + rest == WriteBack(c.left) + more;
    assert more[1..] == WriteLine(c.right) + rest;
    assert ParseBacks(c.left, more) == (c.left, more);
  }

  lemma {:induction false} InnerBack<W>(c: Cmd<W>, rest: seq<Tok<W>>)
    requires Fits(c) && StopsLine(rest) && (c.Pipe? || c.List? || c.Back?)
    ensures ParseLine(WriteInner(c) + rest) == Ok(c, rest)
    decreases c, 1
  {
    match c
    case List(l, r) => ListBack(c, rest);
    case Back(e) =>
      var more := [Sym('&')] + rest;
      var d, amps := BacksBack(e, more);
      assert WriteInner(c) + rest == WriteBack(e) + more;
      assert more[1..] == rest && ParseBacks(c, rest) == (c, rest);
    case Pipe(l, r) =>
      PipesBack(c, rest);
      assert ParseBacks(c, rest) == (c, rest);
  }

  /** For every command that fits: parsing what it is written as gives it back. */
  lemma RoundTrip<W>(c: Cmd<W>)
    requires Fits(c)
    ensures ParseCmd(WriteLine(c)) == Ok(c, [])
  {
    LineBack(c, []);
    assert WriteLine(c) + [] == WriteLine(c);
  }
}
