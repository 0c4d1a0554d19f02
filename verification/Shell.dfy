/** The parser of sh.c with its cursor, and the termination of its words in place. */
module Shell {
  import opened ShellLexer
  import opened ShellWords
  import opened ShellModel

  /** What a parsing function gives: a command, or the panic it ends in. */
  datatype Parsed = Done(cmd: Cmd<Span>) | Panic(e: Error)

  function AsResult(p: Parsed, rest: seq<Tok<Span>>): Result<Span> {
    if p.Done? then Ok(p.cmd, rest) else Err(p.e)
  }

  /** The symbols that peek is asked for, other than the redirections. */
  const PLAIN := {'|', '(', ')', ';', '&'}

  lemma PeekTells(s: string, i: nat, cs: set<char>)
    requires i <= |s| && (i < |s| ==> !White(s[i])) && cs <= PLAIN
    ensures Starts(Lex(s, i), cs) <==> i < |s| && s[i] in cs
    ensures Starts(Lex(s, i), {'<', '>', '+'}) <==> i < |s| && s[i] in {'<', '>'}
    ensures Lex(s, i) == [] <==> i == |s|
  {
  }

  /** A C string: the terminating 0 comes after it. */
  ghost predicate NoNul(s: string) {
    forall i :: 0 <= i < |s| ==> s[i] != '\0'
  }

  class Parser {
    const s: string
    var pos: nat

    constructor (line: string)
      ensures s == line && pos == 0
    {
      s, pos := line, 0;
    }

    method SkipSpace()
      requires pos <= |s|
      modifies this`pos
      ensures old(pos) <= pos <= |s| && Lex(s, pos) == Lex(s, old(pos)) && (pos < |s| ==> !White(s[pos]))
    {
      var i := pos;
      while pos < |s| && White(s[pos])
        invariant i <= pos <= |s| && forall k :: i <= k < pos ==> White(s[k])
      {
        pos := pos + 1;
      }
      LexSkips(s, i, pos);
    }

    /** peek. */
    method Peek(cs: set<char>) returns (b: bool)
      requires pos <= |s|
      modifies this`pos
      ensures old(pos) <= pos <= |s| && Lex(s, pos) == Lex(s, old(pos)) && (pos < |s| ==> !White(s[pos]))
      ensures b <==> pos < |s| && s[pos] in cs
    {
      SkipSpace();
      b := pos < |s| && s[pos] in cs;
    }

    /** gettoken: the kind of the next token, a word's being 'a' and 0 at the end, and where a word is. */
    method GetToken() returns (tok: char, w: Span)
      requires pos <= |s| && NoNul(s)
      modifies this`pos
      ensures old(pos) <= pos <= |s|
      ensures Lex(s, old(pos)) == [] ==> tok == '\0' && Lex(s, pos) == []
      ensures Lex(s, old(pos)) != [] ==>
                && old(pos) < pos && Lex(s, pos) == Lex(s, old(pos))[1..]
                && Lex(s, old(pos))[0] == if tok == 'a' then Word(w) else Sym(tok)
      ensures tok != '\0' <==> Lex(s, old(pos)) != []
    {
      hide Lex, TokenAt, WordEnd;
      SkipSpace();
      LexFrom(s, pos);
      if pos == |s| {
        return '\0', Span(pos, pos);
      }
      tok, w := Scan();
      SkipSpace();
    }

    /** The switch of gettoken. */
    method Scan() returns (tok: char, w: Span)
      requires pos < |s| && !White(s[pos]) && s[pos] != '\0'
      modifies this`pos
      ensures tok != '\0' && (if tok == 'a' then Word(w) else Sym(tok), pos) == TokenAt(s, old(pos))
    {
      var q := pos;
      if Symbol(s[pos]) {
        tok := s[pos];
        pos := pos + 1;
        if tok == '>' && pos < |s| && s[pos] == '>' {
          tok := '+';
          pos := pos + 1;
        }
      } else {
        tok := 'a';
        pos := pos + 1;
        while pos < |s| && WordChar(s[pos])
          invariant q < pos <= |s| && WordEnd(s, pos) == WordEnd(s, q + 1)
        {
          pos := pos + 1;
        }
      }
      w := Span(q, pos);
    }

    /** parseredirs: the redirections from here on, after those given; false is its panic. */
    method Redirections(rs0: seq<Redirection<Span>>) returns (ok: bool, rs: seq<Redirection<Span>>)
      requires pos <= |s| && NoNul(s)
      modifies this`pos
      ensures old(pos) <= pos <= |s|
      ensures var r := ParseRedirs(rs0, Lex(s, old(pos))); if ok then r == Redirs(rs, Lex(s, pos)) else r.NoFile?
    {
      hide Lex, TokenAt;
      ghost var start := pos;
      rs := rs0;
      var more := Peek({'<', '>'});
      while more
        invariant start <= pos <= |s| && (pos < |s| ==> !White(s[pos]))
        invariant more <==> pos < |s| && s[pos] in {'<', '>'}
        invariant ParseRedirs(rs, Lex(s, pos)) == ParseRedirs(rs0, Lex(s, start))
        decreases |s| - pos
      {
        PeekTells(s, pos, {});
        ghost var toks := Lex(s, pos);
        var tok, _ := GetToken();
        var kind, w := GetToken();
        if kind != 'a' {
          return false, rs;
        }
        assert toks[1] == Word(w) && toks[2..] == Lex(s, pos);
        rs := rs + [Redirection(if tok == '<' then In else Out, w)];
        more := Peek({'<', '>'});
      }
      PeekTells(s, pos, {});
      return true, rs;
    }

    /** parseexec: a block, or words and redirections. */
    method Execs() returns (p: Parsed)
      requires pos <= |s| && NoNul(s)
      modifies this`pos
      ensures old(pos) <= pos <= |s| && AsResult(p, Lex(s, pos)) == ParseExec(Lex(s, old(pos)))
      decreases |s| - pos, 1
    {
      hide Lex, TokenAt, ParseExec, ParseRedirs, ParseArgs;
      ghost var toks := Lex(s, pos);
      var block := Peek({'('});
      PeekTells(s, pos, {'('});
      if block {
        p := Block();
        return;
      }
      ExecParts(toks);
      var ok, rs := Redirections([]);
      if !ok {
        return Panic(MissingFile);
      }
      p := Args(rs);
    }

    /** The loop of parseexec. */
    method Args(rs0: seq<Redirection<Span>>) returns (p: Parsed)
      requires pos <= |s| && NoNul(s)
      modifies this`pos
      ensures old(pos) <= pos <= |s| && AsResult(p, Lex(s, pos)) == ParseArgs([], rs0, Lex(s, old(pos)))
    {
      hide Lex, TokenAt, ParseRedirs, Wrap;
      ghost var start := pos;
      var argv: seq<Span>, rs := [], rs0;
      var stop := Peek({'|', ')', '&', ';'});
      while !stop
        invariant start <= pos <= |s| && (pos < |s| ==> !White(s[pos]))
        invariant stop <==> pos < |s| && s[pos] in {'|', ')', '&', ';'}
        invariant ParseArgs(argv, rs, Lex(s, pos)) == ParseArgs([], rs0, Lex(s, start))
        decreases |s| - pos
      {
        PeekTells(s, pos, {'|', ')', '&', ';'});
        var tok, w := GetToken();
        if tok == '\0' {
          break;
        }
        if tok != 'a' {
          return Panic(Syntax);
        }
        argv := argv + [w];
        if |argv| >= MAXARGS {
          return Panic(TooManyArgs);
        }
        var ok;
        ok, rs := Redirections(rs);
        if !ok {
          return Panic(MissingFile);
        }
        stop := Peek({'|', ')', '&', ';'});
      }
      PeekTells(s, pos, {'|', ')', '&', ';'});
      return Done(Wrap(Exec(argv), rs));
    }

    /** parseblock. */
    method Block() returns (p: Parsed)
      requires pos < |s| && NoNul(s) && s[pos] == '('
      modifies this`pos
      ensures old(pos) <= pos <= |s| && AsResult(p, Lex(s, pos)) == ParseExec(Lex(s, old(pos)))
      decreases |s| - pos, 0
    {
      hide Lex, TokenAt, ParseLine, ParseRedirs, Wrap;
      PeekTells(s, pos, {'('});
      var _, _ := GetToken();
      p := Line();
      if p.Panic? {
        return;
      }
      var closed := Peek({')'});
      PeekTells(s, pos, {')'});
      if !closed {
        return Panic(MissingParen);
      }
      var _, _ := GetToken();
      var ok, rs := Redirections([]);
      if !ok {
        return Panic(MissingFile);
      }
      return Done(Wrap(p.cmd, rs));
    }

    /** parsepipe. */
    method Pipeline() returns (p: Parsed)
      requires pos <= |s| && NoNul(s)
      modifies this`pos
      ensures old(pos) <= pos <= |s| && AsResult(p, Lex(s, pos)) == ParsePipe(Lex(s, old(pos)))
      decreases |s| - pos, 2
    {
      hide Lex, TokenAt, ParseExec;
      p := Execs();
      if p.Panic? {
        return;
      }
      var more := Peek({'|'});
      PeekTells(s, pos, {'|'});
      if more {
        var _, _ := GetToken();
        var right := Pipeline();
        p := if right.Panic? then right else Done(Pipe(p.cmd, right.cmd));
      }
    }

    /** parseline. */
    method Line() returns (p: Parsed)
      requires pos <= |s| && NoNul(s)
      modifies this`pos
      ensures old(pos) <= pos <= |s| && AsResult(p, Lex(s, pos)) == ParseLine(Lex(s, old(pos)))
      decreases |s| - pos, 3
    {
      hide Lex, TokenAt, ParsePipe;
      p := Pipeline();
      if p.Panic? {
        return;
      }
      var cmd := Backs(p.cmd);
      p := Done(cmd);
      var more := Peek({';'});
      PeekTells(s, pos, {';'});
      if more {
        var _, _ := GetToken();
        var right := Line();
        p := if right.Panic? then right else Done(List(cmd, right.cmd));
      }
    }

    /** The loop of parseline. */
    method Backs(c: Cmd<Span>) returns (d: Cmd<Span>)
      requires pos <= |s| && NoNul(s)
      modifies this`pos
      ensures old(pos) <= pos <= |s| && (d, Lex(s, pos)) == ParseBacks(c, Lex(s, old(pos)))
    {
      hide Lex, TokenAt;
      ghost var start := pos;
      d := c;
      var more := Peek({'&'});
      while more
        invariant start <= pos <= |s| && (pos < |s| ==> !White(s[pos])) && (more <==> pos < |s| && s[pos] == '&')
        invariant ParseBacks(d, Lex(s, pos)) == ParseBacks(c, Lex(s, start))
        decreases |s| - pos
      {
        PeekTells(s, pos, {'&'});
        var _, _ := GetToken();
        d := Back(d);
        more := Peek({'&'});
      }
      PeekTells(s, pos, {'&'});
    }
  }

  lemma LexFrom(s: string, i: nat)
    requires i <= |s| && (i < |s| ==> !White(s[i]))
    ensures i == |s| ==> Lex(s, i) == []
    ensures i < |s| ==> Lex(s, i) == [TokenAt(s, i).0] + Lex(s, TokenAt(s, i).1)
  {
  }
}
