/** parsecmd as a whole: the line in memory, and its words ended by 0 in place. */
module ShellMemory {
  import opened Shell
  import opened ShellLexer
  import opened ShellWords
  import opened ShellModel

  /** The ends of the words of a command. */
  ghost predicate EndOf(c: Cmd<Span>, k: nat) {
    match c
    case Exec(argv) => exists i :: 0 <= i < |argv| && argv[i].eq == k
    case Redir(d, r) => EndOf(d, k) || r.file.eq == k
    case Pipe(l, r) => EndOf(l, k) || EndOf(r, k)
    case List(l, r) => EndOf(l, k) || EndOf(r, k)
    case Back(d) => EndOf(d, k)
  }

  lemma {:induction false} EndOfWord(c: Cmd<Span>, w: Span)
    requires w in CmdWords(c)
    ensures EndOf(c, w.eq)
  {
    match c
    case Exec(argv) =>
      assert w in argv;
    case Redir(d, r) =>
      if w in CmdWords(d) {
        EndOfWord(d, w);
      }
    case Pipe(l, r) =>
      if w in CmdWords(l) {
        EndOfWord(l, w);
      } else {
        EndOfWord(r, w);
      }
    case List(l, r) =>
      if w in CmdWords(l) {
        EndOfWord(l, w);
      } else {
        EndOfWord(r, w);
      }
    case Back(d) =>
      EndOfWord(d, w);
  }

  lemma {:induction false} WordOfEnd(c: Cmd<Span>, k: nat) returns (w: Span)
    requires EndOf(c, k)
    ensures w in CmdWords(c) && w.eq == k
  {
    match c
    case Exec(argv) =>
      var i :| 0 <= i < |argv| && argv[i].eq == k;
      w := argv[i];
    case Redir(d, r) =>
      if r.file.eq == k {
        w := r.file;
      } else {
        w := WordOfEnd(d, k);
      }
    case Pipe(l, r) =>
      if EndOf(l, k) {
        w := WordOfEnd(l, k);
      } else {
        w := WordOfEnd(r, k);
      }
    case List(l, r) =>
      if EndOf(l, k) {
        w := WordOfEnd(l, k);
      } else {
        w := WordOfEnd(r, k);
      }
    case Back(d) =>
      w := WordOfEnd(d, k);
  }

  /** nulterminate: a 0 at the end of every word, and nowhere else. */
  method Nulterminate(c: Cmd<Span>, buf: array<char>)
    requires forall k: nat :: EndOf(c, k) ==> k < buf.Length
    modifies buf
    ensures forall k :: 0 <= k < buf.Length ==> buf[k] == if EndOf(c, k) then '\0' else old(buf[k])
    decreases c
  {
    match c
    case Exec(argv) =>
      for i := 0 to |argv|
        invariant forall k :: 0 <= k < buf.Length ==>
                    buf[k] == if exists j :: 0 <= j < i && argv[j].eq == k then '\0' else old(buf[k])
      {
        assert EndOf(c, argv[i].eq);
        buf[argv[i].eq] := '\0';
      }
    case Redir(d, r) =>
      assert forall k: nat :: EndOf(d, k) ==> EndOf(c, k);
      Nulterminate(d, buf);
      assert EndOf(c, r.file.eq);
      buf[r.file.eq] := '\0';
    case Pipe(l, r) =>
      assert forall k: nat :: EndOf(l, k) || EndOf(r, k) ==> EndOf(c, k);
      Nulterminate(l, buf);
      Nulterminate(r, buf);
    case List(l, r) =>
      assert forall k: nat :: EndOf(l, k) || EndOf(r, k) ==> EndOf(c, k);
      Nulterminate(l, buf);
      Nulterminate(r, buf);
    case Back(d) =>
      assert forall k: nat :: EndOf(d, k) ==> EndOf(c, k);
      Nulterminate(d, buf);
  }

  /** The C string at `q` is the text of the word. */
  ghost predicate IsString(buf: seq<char>, s: string, w: Span) {
    w.q <= w.eq < |buf| && w.eq <= |s| && buf[w.q..w.eq] == s[w.q..w.eq] && buf[w.eq] == '\0'
  }

  /** Ends of words are inside no word, so every word keeps its text. */
  lemma WordsKept(buf: seq<char>, s: string, c: Cmd<Span>)
    requires |s| < |buf| && forall w <- CmdWords(c) :: SpanOk(s, w)
    requires forall k :: 0 <= k < |buf| && k < |s| ==> buf[k] == if EndOf(c, k) then '\0' else s[k]
    requires buf[|s|] == '\0'
    ensures forall w <- CmdWords(c) :: IsString(buf, s, w)
  {
    forall w <- CmdWords(c)
      ensures IsString(buf, s, w)
    {
      EndOfWord(c, w);
      forall k | w.q <= k < w.eq
        ensures buf[k] == s[k]
      {
        if EndOf(c, k) {
          var v := WordOfEnd(c, k);
        }
      }
    }
  }

  /**
    parsecmd: the command of the line, or the panic; in the command's memory every word is
    then a C string equal to its token, and only ends of words changed.
   */
  method ParseLineIn(buf: array<char>) returns (p: Parsed, ghost line: string)
    requires exists i :: 0 <= i < buf.Length && buf[i] == '\0'
    modifies buf
    ensures |line| < buf.Length && line == old(buf[..])[..|line|] && NoNul(line) && old(buf[|line|]) == '\0'
    ensures AsResult(p, []) == ParseCmd(Lex(line, 0))
    ensures p.Panic? ==> buf[..] == old(buf[..])
    ensures p.Done? ==> forall w <- CmdWords(p.cmd) :: IsString(buf[..], line, w)
    ensures p.Done? ==> forall k :: 0 <= k < buf.Length && !EndOf(p.cmd, k) ==> buf[k] == old(buf[k])
  {
    var n := Strlen(buf);
    var s := buf[..n];
    line := s;
    var parser := new Parser(s);
    p := parser.Line();
    if p.Panic? {
      return;
    }
    var _ := parser.Peek({});
    PeekTells(s, parser.pos, {});
    if parser.pos != n {
      return Panic(Leftovers), line;
    }
    WordsConserved(Lex(s, 0));
    LexSpans(s, 0);
    forall k: nat | EndOf(p.cmd, k)
      ensures k < buf.Length
    {
      var w := WordOfEnd(p.cmd, k);
      assert SpanOk(s, w);
    }
    Nulterminate(p.cmd, buf);
    WordsKept(buf[..], s, p.cmd);
  }

  method Strlen(buf: array<char>) returns (n: nat)
    requires exists i :: 0 <= i < buf.Length && buf[i] == '\0'
    ensures n < buf.Length && buf[n] == '\0' && forall i :: 0 <= i < n ==> buf[i] != '\0'
  {
    n := 0;
    while buf[n] != '\0'
      invariant n < buf.Length && forall i :: 0 <= i < n ==> buf[i] != '\0'
      decreases buf.Length - n
    {
      n := n + 1;
    }
  }
}
