/** What the parser does with the words: it only moves them, and loses and repeats none. */
module ShellWords {
  import opened ShellModel

  // ---------------------------------------------------------------------------
  // Every word of the input is in the command once

  ghost function TokWords<W>(toks: seq<Tok<W>>): multiset<W> {
    if toks == [] then multiset{}
    else (if toks[0].Word? then multiset{toks[0].w} else multiset{}) + TokWords(toks[1..])
  }

  ghost function RedirWords<W>(rs: seq<Redirection<W>>): multiset<W> {
    if rs == [] then multiset{} else RedirWords(rs[..|rs| - 1]) + multiset{rs[|rs| - 1].file}
  }

  ghost function CmdWords<W>(c: Cmd<W>): multiset<W> {
    match c
    case Exec(argv) => multiset(argv)
    case Redir(d, r) => CmdWords(d) + multiset{r.file}
    case Pipe(l, r) => CmdWords(l) + CmdWords(r)
    case List(l, r) => CmdWords(l) + CmdWords(r)
    case Back(d) => CmdWords(d)
  }

  lemma {:induction false} WrapWords<W>(c: Cmd<W>, rs: seq<Redirection<W>>)
    ensures CmdWords(Wrap(c, rs)) == CmdWords(c) + RedirWords(rs)
    decreases |rs|
  {
    if rs != [] {
      WrapWords(c, rs[..|rs| - 1]);
    }
  }

  lemma {:induction false} RedirsWords<W>(rs: seq<Redirection<W>>, toks: seq<Tok<W>>)
    requires ParseRedirs(rs, toks).Redirs?
    ensures var r := ParseRedirs(rs, toks); RedirWords(r.rs) + TokWords(r.rest) == RedirWords(rs) + TokWords(toks)
    decreases |toks|
  {
    if Starts(toks, {'<', '>', '+'}) {
      var more := rs + [Redirection(if toks[0].c == '<' then In else Out, toks[1].w)];
      RedirsWords(more, toks[2..]);
      assert more[..|more| - 1] == rs;
      assert toks[1..][1..] == toks[2..];
    }
  }

  lemma {:induction false} ArgsWords<W>(argv: seq<W>, rs: seq<Redirection<W>>, toks: seq<Tok<W>>)
    requires ParseArgs(argv, rs, toks).Ok?
    ensures var r := ParseArgs(argv, rs, toks);
            CmdWords(r.cmd) + TokWords(r.rest) == multiset(argv) + RedirWords(rs) + TokWords(toks)
    decreases |toks|
  {
    if toks == [] || Starts(toks, {'|', ')', '&', ';'}) {
      WrapWords(Exec(argv), rs);
    } else {
      var r, w := ParseRedirs(rs, toks[1..]), toks[0].w;
      RedirsWords(rs, toks[1..]);
      ArgsWords(argv + [w], r.rs, r.rest);
      assert ParseArgs(argv, rs, toks) == ParseArgs(argv + [w], r.rs, r.rest);
      assert TokWords(toks) == multiset{w} + TokWords(toks[1..]);
      assert multiset(argv + [w]) == multiset(argv) + multiset{w};
      Regroup(multiset(argv), multiset{w}, RedirWords(r.rs), TokWords(r.rest), RedirWords(rs), TokWords(toks[1..]));
    }
  }

  lemma Regroup<W>(a: multiset<W>, w: multiset<W>, x: multiset<W>, y: multiset<W>, p: multiset<W>, q: multiset<W>)
    requires x + y == p + q
    ensures a + w + x + y == a + p + (w + q)
  {
    assert a + w + x + y == a + w + (x + y);
  }

  lemma {:induction false} ExecWords<W>(toks: seq<Tok<W>>)
    requires ParseExec(toks).Ok?
    ensures CmdWords(ParseExec(toks).cmd) + TokWords(ParseExec(toks).rest) == TokWords(toks)
    decreases |toks|, 1
  {
    if Starts(toks, {'('}) {
      BlockWords(toks);
    } else {
      SimpleWords(toks);
    }
  }

  lemma SimpleWords<W>(toks: seq<Tok<W>>)
    requires !Starts(toks, {'('}) && ParseExec(toks).Ok?
    ensures CmdWords(ParseExec(toks).cmd) + TokWords(ParseExec(toks).rest) == TokWords(toks)
  {
    ExecParts(toks);
    hide ParseExec, ParseArgs, ParseRedirs, CmdWords, TokWords;
    var none: seq<W> := [];
    var noRedirs: seq<Redirection<W>> := [];
    var r := ParseRedirs(noRedirs, toks);
    RedirsWords(noRedirs, toks);
    ArgsWords(none, r.rs, r.rest);
    assert multiset(none) + RedirWords(r.rs) + TokWords(r.rest) == RedirWords(r.rs) + TokWords(r.rest);
    assert RedirWords(noRedirs) + TokWords(toks) == TokWords(toks);
  }

  lemma NoWords<W>()
    ensures (var none: seq<W> := []; multiset(none) == multiset{})
            && (var none: seq<Redirection<W>> := []; RedirWords(none) == multiset{})
  {
  }

  lemma {:induction false} BlockWords<W>(toks: seq<Tok<W>>)
    requires Starts(toks, {'('}) && ParseBlock(toks).Ok?
    ensures CmdWords(ParseBlock(toks).cmd) + TokWords(ParseBlock(toks).rest) == TokWords(toks)
    decreases |toks|, 0
  {
    BlockParts(toks);
    hide ParseLine, ParseRedirs, ParseBlock, ParseExec, Wrap, CmdWords;
    var l := ParseLine(toks[1..]);
    LineWords(toks[1..]);
    var r := ParseRedirs([], l.rest[1..]);
    RedirsWords([], l.rest[1..]);
    WrapWords(l.cmd, r.rs);
    NoWords<W>();
    assert TokWords(l.rest) == TokWords(l.rest[1..]) && TokWords(toks) == TokWords(toks[1..]);
    assert CmdWords(l.cmd) + RedirWords(r.rs) + TokWords(r.rest) ==
           CmdWords(l.cmd) + (RedirWords(r.rs) + TokWords(r.rest));
  }

  lemma {:induction false} PipeWords<W>(toks: seq<Tok<W>>)
    requires ParsePipe(toks).Ok?
    ensures CmdWords(ParsePipe(toks).cmd) + TokWords(ParsePipe(toks).rest) == TokWords(toks)
    decreases |toks|, 2
  {
    ExecWords(toks);
    var l := ParseExec(toks);
    if Starts(l.rest, {'|'}) {
      PipeWords(l.rest[1..]);
    }
  }

  lemma {:induction false} BacksWords<W>(c: Cmd<W>, toks: seq<Tok<W>>)
    ensures CmdWords(ParseBacks(c, toks).0) + TokWords(ParseBacks(c, toks).1) == CmdWords(c) + TokWords(toks)
    decreases |toks|
  {
    if Starts(toks, {'&'}) {
      BacksWords(Back(c), toks[1..]);
    }
  }

  lemma {:induction false} LineWords<W>(toks: seq<Tok<W>>)
    requires ParseLine(toks).Ok?
    ensures CmdWords(ParseLine(toks).cmd) + TokWords(ParseLine(toks).rest) == TokWords(toks)
    decreases |toks|, 3
  {
    PipeWords(toks);
    var p := ParsePipe(toks);
    BacksShorter(p.cmd, p.rest);
    BacksWords(p.cmd, p.rest);
    var b := ParseBacks(p.cmd, p.rest);
    if Starts(b.1, {';'}) {
      LineWords(b.1[1..]);
    }
  }

  /** No word is lost, repeated or made up: every accepted line and its command have the same words. */
  lemma WordsConserved<W>(toks: seq<Tok<W>>)
    requires ParseCmd(toks).Ok?
    ensures CmdWords(ParseCmd(toks).cmd) == TokWords(toks)
  {
    LineWords(toks);
  }

  // ---------------------------------------------------------------------------
  // The parser does not look inside words

  function MapTok<W, V>(f: W -> V, t: Tok<W>): Tok<V> {
    if t.Sym? then Sym(t.c) else Word(f(t.w))
  }

  function MapToks<W, V>(f: W -> V, toks: seq<Tok<W>>): (r: seq<Tok<V>>)
    ensures |r| == |toks| && forall i :: 0 <= i < |r| ==> r[i] == MapTok(f, toks[i])
  {
    seq(|toks|, i requires 0 <= i < |toks| => MapTok(f, toks[i]))
  }

  function MapArgs<W, V>(f: W -> V, ws: seq<W>): (r: seq<V>)
    ensures |r| == |ws| && forall i :: 0 <= i < |r| ==> r[i] == f(ws[i])
  {
    seq(|ws|, i requires 0 <= i < |ws| => f(ws[i]))
  }

  function MapRedir<W, V>(f: W -> V, r: Redirection<W>): Redirection<V> {
    Redirection(r.kind, f(r.file))
  }

  function MapRedirs<W, V>(f: W -> V, rs: seq<Redirection<W>>): (r: seq<Redirection<V>>)
    ensures |r| == |rs| && forall i :: 0 <= i < |r| ==> r[i] == MapRedir(f, rs[i])
  {
    seq(|rs|, i requires 0 <= i < |rs| => MapRedir(f, rs[i]))
  }

  function MapCmd<W, V>(f: W -> V, c: Cmd<W>): Cmd<V> {
    match c
    case Exec(argv) => Exec(MapArgs(f, argv))
    case Redir(d, r) => Redir(MapCmd(f, d), MapRedir(f, r))
    case Pipe(l, r) => Pipe(MapCmd(f, l), MapCmd(f, r))
    case List(l, r) => List(MapCmd(f, l), MapCmd(f, r))
    case Back(d) => Back(MapCmd(f, d))
  }

  function MapResult<W, V>(f: W -> V, r: Result<W>): Result<V> {
    if r.Err? then Err(r.e) else Ok(MapCmd(f, r.cmd), MapToks(f, r.rest))
  }

  lemma MapStarts<W, V>(f: W -> V, toks: seq<Tok<W>>, cs: set<char>)
    ensures Starts(MapToks(f, toks), cs) <==> Starts(toks, cs)
    ensures forall n :: 0 <= n <= |toks| ==> MapToks(f, toks)[n..] == MapToks(f, toks[n..])
  {
  }

  lemma {:induction false} WrapMapped<W, V>(f: W -> V, c: Cmd<W>, rs: seq<Redirection<W>>)
    ensures Wrap(MapCmd(f, c), MapRedirs(f, rs)) == MapCmd(f, Wrap(c, rs))
    decreases |rs|
  {
    if rs != [] {
      WrapMapped(f, c, rs[..|rs| - 1]);
      assert MapRedirs(f, rs)[..|rs| - 1] == MapRedirs(f, rs[..|rs| - 1]);
    }
  }

  lemma {:induction false} RedirsMapped<W, V>(f: W -> V, rs: seq<Redirection<W>>, toks: seq<Tok<W>>)
    ensures var r, m := ParseRedirs(rs, toks), ParseRedirs(MapRedirs(f, rs), MapToks(f, toks));
            if r.NoFile? then m.NoFile? else m == Redirs(MapRedirs(f, r.rs), MapToks(f, r.rest))
    decreases |toks|
  {
    MapStarts(f, toks, {'<', '>', '+'});
    if Starts(toks, {'<', '>', '+'}) && |toks| >= 2 && toks[1].Word? {
      var r := Redirection(if toks[0].c == '<' then In else Out, toks[1].w);
      RedirsMapped(f, rs + [r], toks[2..]);
      assert MapRedirs(f, rs) + [MapRedir(f, r)] == MapRedirs(f, rs + [r]);
    }
  }

  lemma {:induction false} ArgsMapped<W, V>(f: W -> V, argv: seq<W>, rs: seq<Redirection<W>>, toks: seq<Tok<W>>)
    ensures ParseArgs(MapArgs(f, argv), MapRedirs(f, rs), MapToks(f, toks)) == MapResult(f, ParseArgs(argv, rs, toks))
    decreases |toks|
  {
    MapStarts(f, toks, {'|', ')', '&', ';'});
    if toks == [] || Starts(toks, {'|', ')', '&', ';'}) {
      WrapMapped(f, Exec(argv), rs);
    } else if toks[0].Word? && |argv| + 1 < MAXARGS {
      RedirsMapped(f, rs, toks[1..]);
      var r := ParseRedirs(rs, toks[1..]);
      assert MapArgs(f, argv) + [f(toks[0].w)] == MapArgs(f, argv + [toks[0].w]);
      if r.Redirs? {
        ArgsMapped(f, argv + [toks[0].w], r.rs, r.rest);
      }
    }
  }

  lemma {:induction false} ExecMapped<W, V>(f: W -> V, toks: seq<Tok<W>>)
    ensures ParseExec(MapToks(f, toks)) == MapResult(f, ParseExec(toks))
    decreases |toks|, 1
  {
    MapStarts(f, toks, {'('});
    if Starts(toks, {'('}) {
      BlockMapped(f, toks);
    } else {
      SimpleMapped(f, toks);
    }
  }

  lemma SimpleMapped<W, V>(f: W -> V, toks: seq<Tok<W>>)
    requires !Starts(toks, {'('})
    ensures ParseExec(MapToks(f, toks)) == MapResult(f, ParseExec(toks))
  {
    MapStarts(f, toks, {'('});
    ExecParts(toks);
    ExecParts(MapToks(f, toks));
    hide ParseExec, ParseRedirs, ParseArgs, MapToks;
    RedirsMapped(f, [], toks);
    assert MapRedirs(f, []) == [] && MapArgs(f, []) == [];
    var r := ParseRedirs([], toks);
    if r.Redirs? {
      ArgsMapped(f, [], r.rs, r.rest);
    }
  }

  lemma {:induction false} BlockMapped<W, V>(f: W -> V, toks: seq<Tok<W>>)
    requires Starts(toks, {'('})
    ensures Starts(MapToks(f, toks), {'('}) && ParseBlock(MapToks(f, toks)) == MapResult(f, ParseBlock(toks))
    decreases |toks|, 0
  {
    MapStarts(f, toks, {'('});
    LineMapped(f, toks[1..]);
    var l := ParseLine(toks[1..]);
    if l.Ok? {
      MapStarts(f, l.rest, {')'});
      if Starts(l.rest, {')'}) {
        RedirsMapped(f, [], l.rest[1..]);
        assert MapRedirs(f, []) == [];
        var r := ParseRedirs([], l.rest[1..]);
        if r.Redirs? {
          WrapMapped(f, l.cmd, r.rs);
        }
      }
    }
    hide ParseLine, ParseRedirs, Wrap;
  }

  lemma {:induction false} PipeMapped<W, V>(f: W -> V, toks: seq<Tok<W>>)
    ensures ParsePipe(MapToks(f, toks)) == MapResult(f, ParsePipe(toks))
    decreases |toks|, 2
  {
    ExecMapped(f, toks);
    var l := ParseExec(toks);
    if l.Ok? {
      MapStarts(f, l.rest, {'|'});
      if Starts(l.rest, {'|'}) {
        PipeMapped(f, l.rest[1..]);
      }
    }
  }

  lemma {:induction false} BacksMapped<W, V>(f: W -> V, c: Cmd<W>, toks: seq<Tok<W>>)
    ensures var b, m := ParseBacks(c, toks), ParseBacks(MapCmd(f, c), MapToks(f, toks));
            m == (MapCmd(f, b.0), MapToks(f, b.1))
    decreases |toks|
  {
    MapStarts(f, toks, {'&'});
    if Starts(toks, {'&'}) {
      BacksMapped(f, Back(c), toks[1..]);
    }
  }

  lemma {:induction false} LineMapped<W, V>(f: W -> V, toks: seq<Tok<W>>)
    ensures ParseLine(MapToks(f, toks)) == MapResult(f, ParseLine(toks))
    decreases |toks|, 3
  {
    PipeMapped(f, toks);
    var p := ParsePipe(toks);
    if p.Ok? {
      BacksShorter(p.cmd, p.rest);
      BacksMapped(f, p.cmd, p.rest);
      var b := ParseBacks(p.cmd, p.rest);
      MapStarts(f, b.1, {';'});
      if Starts(b.1, {';'}) {
        LineMapped(f, b.1[1..]);
      }
    }
  }

  /** Renaming the words of a line renames the words of its command and does nothing else. */
  lemma ParseMapped<W, V>(f: W -> V, toks: seq<Tok<W>>)
    ensures ParseCmd(MapToks(f, toks)) == MapResult(f, ParseCmd(toks))
  {
    LineMapped(f, toks);
  }
}
