/** The tokens of a command line of sh.c, and the text a command is written as. */
module ShellLexer {
  import Grammar = ShellGrammar
  import opened ShellModel
  import opened ShellRoundTrip
  import opened ShellWords

  predicate White(c: char) {
    c == ' ' || c == '\t' || c == '\r' || c == '\n' || c == '\U{000B}'
  }

  predicate Symbol(c: char) {
    c == '<' || c == '|' || c == '>' || c == '&' || c == ';' || c == '(' || c == ')'
  }

  predicate WordChar(c: char) {
    !White(c) && !Symbol(c)
  }

  /** A word of the line: from `q` up to but not including `eq`. */
  datatype Span = Span(q: nat, eq: nat)

  function SkipWhite(s: string, i: nat): (j: nat)
    requires i <= |s|
    ensures i <= j <= |s| && (forall k :: i <= k < j ==> White(s[k])) && (j < |s| ==> !White(s[j]))
    decreases |s| - i
  {
    if i < |s| && White(s[i]) then SkipWhite(s, i + 1) else i
  }

  function WordEnd(s: string, i: nat): (j: nat)
    requires i <= |s|
    ensures i <= j <= |s| && (forall k :: i <= k < j ==> WordChar(s[k])) && (j < |s| ==> !WordChar(s[j]))
    decreases |s| - i
  {
    if i < |s| && WordChar(s[i]) then WordEnd(s, i + 1) else i
  }

  /** The token that begins at `i`, and where it ends. */
  function TokenAt(s: string, i: nat): (r: (Tok<Span>, nat))
    requires i < |s| && !White(s[i])
    ensures i < r.1 <= |s|
  {
    if s[i] == '>' && i + 1 < |s| && s[i + 1] == '>' then (Sym('+'), i + 2)
    else if Symbol(s[i]) then (Sym(s[i]), i + 1)
    else (Word(Span(i, WordEnd(s, i + 1))), WordEnd(s, i + 1))
  }

  function Lex(s: string, i: nat): seq<Tok<Span>>
    requires i <= |s|
    decreases |s| - i
  {
    var j := SkipWhite(s, i);
    if j == |s| then [] else [TokenAt(s, j).0] + Lex(s, TokenAt(s, j).1)
  }

  lemma {:induction false} SkipSame(s: string, i: nat, j: nat)
    requires i <= j <= |s| && forall k :: i <= k < j ==> White(s[k])
    ensures SkipWhite(s, i) == SkipWhite(s, j)
    decreases j - i
  {
    if i < j {
      SkipSame(s, i + 1, j);
    }
  }

  /** White space before a token does not matter. */
  lemma LexSkips(s: string, i: nat, j: nat)
    requires i <= j <= |s| && forall k :: i <= k < j ==> White(s[k])
    ensures Lex(s, i) == Lex(s, j)
  {
    SkipSame(s, i, j);
    hide TokenAt, SkipWhite;
  }

  // ---------------------------------------------------------------------------
  // Words end where no word goes on

  ghost predicate SpanOk(s: string, w: Span) {
    && w.q < w.eq <= |s| && (forall k :: w.q <= k < w.eq ==> WordChar(s[k]))
    && (w.eq < |s| ==> !WordChar(s[w.eq]))
  }

  lemma {:induction false} LexSpans(s: string, i: nat)
    requires i <= |s|
    ensures forall w <- TokWords(Lex(s, i)) :: SpanOk(s, w)
    decreases |s| - i
  {
    var j := SkipWhite(s, i);
    if j < |s| {
      var t := TokenAt(s, j);
      LexSpans(s, t.1);
      assert Lex(s, i)[0] == t.0 && Lex(s, i)[1..] == Lex(s, t.1);
    }
  }

  // ---------------------------------------------------------------------------
  // Text

  function TextOf(s: string, w: Span): string {
    if w.q <= w.eq <= |s| then s[w.q..w.eq] else ""
  }

  function Texts(s: string): Span -> string {
    (w: Span) => TextOf(s, w)
  }

  /** Neither white space nor one of the symbols, as sh.c lists them. */
  predicate Plain(c: char) {
    c !in " \t\r\n\U{000B}" && c !in "<|>&;()"
  }

  predicate TokOk(t: Tok<string>) {
    if t.Sym? then t.c in "<|>&;()+" else t.w != [] && forall k :: 0 <= k < |t.w| ==> Plain(t.w[k])
  }

  function TokText(t: Tok<string>): string {
    if t.Word? then t.w else if t.c == '+' then ">>" else [t.c]
  }

  ghost predicate AllOk(toks: seq<Tok<string>>) {
    forall k :: 0 <= k < |toks| ==> TokOk(toks[k])
  }

  /** White space, as sh.c lists it. */
  predicate Gap(g: string) {
    forall k :: 0 <= k < |g| ==> g[k] in " \t\r\n\U{000B}"
  }

  /** Two tokens that read as one, or as others, if nothing is between them. */
  predicate Apart(a: Tok<string>, b: Tok<string>) {
    (a.Word? && b.Word?) || (a == Sym('>') && (b == Sym('>') || b == Sym('+')))
  }

  /** Tokens written out with white space after each, as much as one likes and none where it is not needed. */
  ghost predicate GapsOk(toks: seq<Tok<string>>, gaps: seq<string>) {
    && |gaps| == |toks| && (forall k :: 0 <= k < |gaps| ==> Gap(gaps[k]))
    && forall k :: 0 <= k < |toks| - 1 && Apart(toks[k], toks[k + 1]) ==> gaps[k] != ""
  }

  function Layout(toks: seq<Tok<string>>, gaps: seq<string>): string
    requires |gaps| == |toks|
  {
    if toks == [] then "" else TokText(toks[0]) + gaps[0] + Layout(toks[1..], gaps[1..])
  }

  lemma {:induction false} WordEndIs(s: string, i: nat, e: nat)
    requires i <= e <= |s| && (forall k :: i <= k < e ==> WordChar(s[k])) && (e < |s| ==> !WordChar(s[e]))
    ensures WordEnd(s, i) == e
    decreases e - i
  {
    if i < e {
      WordEndIs(s, i + 1, e);
    }
  }

  /** The character that follows does not belong to the token. */
  predicate EndsBefore(t: Tok<string>, c: char) {
    (t.Word? ==> !WordChar(c)) && (t == Sym('>') ==> c != '>')
  }

  /** The text from `i` up to `e` is `x`. */
  ghost predicate TextAt(s: string, i: nat, e: nat, x: string) {
    i <= e <= |s| && s[i..e] == x
  }

  /** From `i` on, the text is the tokens laid out. */
  ghost predicate LaidAt(s: string, i: nat, toks: seq<Tok<string>>, gaps: seq<string>) {
    |gaps| == |toks| && i <= |s| && s[i..] == Layout(toks, gaps)
  }

  lemma TextHead(s: string, i: nat, e: nat, x: string)
    requires TextAt(s, i, e, x)
    ensures e == i + |x| <= |s| && forall k :: i <= k < e ==> s[k] == x[k - i]
  {
    assert forall k :: i <= k < e ==> s[k] == s[i..e][k - i];
  }

  /** One token in the text is read back as that token. */
  lemma TokenRead(s: string, i: nat, e: nat, t: Tok<string>)
    requires TokOk(t) && TextAt(s, i, e, TokText(t)) && (e < |s| ==> EndsBefore(t, s[e]))
    ensures i < |s| && !White(s[i])
    ensures TokenAt(s, i).1 == e && MapTok(Texts(s), TokenAt(s, i).0) == t
  {
    TextHead(s, i, e, TokText(t));
    if t.Word? {
      WordEndIs(s, i + 1, e);
    }
  }

  lemma SplitAt(s: string, i: nat, x: string, rest: string)
    requires i <= |s| && s[i..] == x + rest
    ensures TextAt(s, i, i + |x|, x) && s[i + |x|..] == rest
  {
    var r := s[i..];
    assert s[i..i + |x|] == r[..|x|] && s[i + |x|..] == r[|x|..];
  }

  lemma LayoutParts(s: string, i: nat, toks: seq<Tok<string>>, gaps: seq<string>)
    requires toks != [] && LaidAt(s, i, toks, gaps)
    ensures var e := i + |TokText(toks[0])|; var f := e + |gaps[0]|;
            && TextAt(s, i, e, TokText(toks[0])) && TextAt(s, e, f, gaps[0]) && LaidAt(s, f, toks[1..], gaps[1..])
  {
    var x, g, rest := TokText(toks[0]), gaps[0], Layout(toks[1..], gaps[1..]);
    assert Layout(toks, gaps) == x + g + rest;
    hide Layout, TokText, TextAt;
    Grammar.Assoc(x, g, rest);
    SplitAt(s, i, x, g + rest);
    TextHead(s, i, i + |x|, x);
    SplitAt(s, i + |x|, g, rest);
    TextHead(s, i + |x|, i + |x| + |g|, g);
  }

  lemma LayoutEnd(s: string, i: nat, toks: seq<Tok<string>>, gaps: seq<string>)
    requires toks == [] && LaidAt(s, i, toks, gaps)
    ensures i == |s|
  {
  }

  /** What follows a token in the text does not belong to it. */
  lemma FollowedWell(s: string, e: nat, f: nat, toks: seq<Tok<string>>, gaps: seq<string>)
    requires toks != [] && AllOk(toks) && GapsOk(toks, gaps)
    requires TextAt(s, e, f, gaps[0]) && LaidAt(s, f, toks[1..], gaps[1..])
    ensures e < |s| ==> EndsBefore(toks[0], s[e])
  {
    hide TextAt, LaidAt, TokText;
    TextHead(s, e, f, gaps[0]);
    if gaps[0] != "" {
      assert Gap(gaps[0]) && s[e] == gaps[0][0];
    } else if |toks| > 1 {
      var t := toks[1];
      assert toks[1..][0] == t && TokOk(t) && !Apart(toks[0], toks[0 + 1]);
      LayoutParts(s, e, toks[1..], gaps[1..]);
      TextHead(s, e, e + |TokText(t)|, TokText(t));
      Heads(toks[0], t);
    } else {
      LayoutEnd(s, f, toks[1..], gaps[1..]);
    }
  }

  lemma Heads(a: Tok<string>, b: Tok<string>)
    requires TokOk(b) && !Apart(a, b)
    ensures TokText(b) != "" && EndsBefore(a, TokText(b)[0])
  {
  }

  lemma TailOk(toks: seq<Tok<string>>, gaps: seq<string>)
    requires toks != [] && AllOk(toks) && GapsOk(toks, gaps)
    ensures AllOk(toks[1..]) && GapsOk(toks[1..], gaps[1..]) && TokOk(toks[0])
    ensures |gaps| == |toks| && Gap(gaps[0])
  {
  }

  lemma FirstParts(s: string, i: nat, toks: seq<Tok<string>>, gaps: seq<string>)
    requires toks != [] && AllOk(toks) && GapsOk(toks, gaps) && LaidAt(s, i, toks, gaps)
    ensures i < |s| && !White(s[i]) && |gaps| == |toks|
    ensures var r := TokenAt(s, i); var f := r.1 + |gaps[0]|;
            && MapTok(Texts(s), r.0) == toks[0] && TextAt(s, r.1, f, gaps[0]) && Gap(gaps[0])
            && LaidAt(s, f, toks[1..], gaps[1..])
  {
    hide TokenAt, TokOk, Texts, White, EndsBefore, TokText, AllOk, GapsOk, Gap, TextAt, LaidAt, MapTok;
    TailOk(toks, gaps);
    LayoutParts(s, i, toks, gaps);
    var e := i + |TokText(toks[0])|;
    FollowedWell(s, e, e + |gaps[0]|, toks, gaps);
    TokenRead(s, i, e, toks[0]);
  }

  /** The first token is read, and the rest is laid out from where the next begins. */
  lemma FirstRead(s: string, i: nat, toks: seq<Tok<string>>, gaps: seq<string>) returns (f: nat)
    requires toks != [] && AllOk(toks) && GapsOk(toks, gaps) && LaidAt(s, i, toks, gaps)
    ensures |gaps| == |toks| && f <= |s| && LaidAt(s, f, toks[1..], gaps[1..])
    ensures i < |s| && !White(s[i]) && MapTok(Texts(s), TokenAt(s, i).0) == toks[0]
    ensures Lex(s, TokenAt(s, i).1) == Lex(s, f)
  {
    FirstParts(s, i, toks, gaps);
    hide Lex, TokenAt, Texts, White, LaidAt, AllOk, GapsOk, Gap;
    f := TokenAt(s, i).1 + |gaps[0]|;
    LexGap(s, TokenAt(s, i).1, f, gaps[0]);
  }

  /** Tokens laid out in any way are read back as those tokens. */
  lemma {:induction false} TokensRead(s: string, i: nat, toks: seq<Tok<string>>, gaps: seq<string>)
    requires AllOk(toks) && GapsOk(toks, gaps) && LaidAt(s, i, toks, gaps) && i <= |s|
    ensures MapToks(Texts(s), Lex(s, i)) == toks
    decreases |toks|
  {
    if toks == [] {
      LayoutEnd(s, i, toks, gaps);
      LexEnd(s);
    } else {
      hide Lex, TokenAt, Texts, White, AllOk, GapsOk, MapTok, LaidAt;
      TailOk(toks, gaps);
      var f := FirstRead(s, i, toks, gaps);
      var r := TokenAt(s, i);
      TokensRead(s, f, toks[1..], gaps[1..]);
      LexStep(s, i);
      MapCons(Texts(s), r.0, Lex(s, r.1));
      hide MapToks;
      assert toks == [toks[0]] + toks[1..];
    }
  }

  lemma LexEnd(s: string)
    ensures Lex(s, |s|) == []
  {
  }

  lemma LexGap(s: string, e: nat, f: nat, g: string)
    requires TextAt(s, e, f, g) && Gap(g)
    ensures Lex(s, e) == Lex(s, f)
  {
    TextHead(s, e, f, g);
    LexSkips(s, e, f);
  }

  lemma LexStep(s: string, i: nat)
    requires i < |s| && !White(s[i])
    ensures Lex(s, i) == [TokenAt(s, i).0] + Lex(s, TokenAt(s, i).1)
  {
  }

  lemma MapCons<W, V>(f: W -> V, t: Tok<W>, toks: seq<Tok<W>>)
    ensures MapToks(f, [t] + toks) == [MapTok(f, t)] + MapToks(f, toks)
  {
  }

  /** However tokens are laid out, the text parses to what the tokens parse to. */
  lemma TextRead(lead: string, toks: seq<Tok<string>>, gaps: seq<string>)
    requires Gap(lead) && AllOk(toks) && GapsOk(toks, gaps)
    ensures var s := lead + Layout(toks, gaps); MapResult(Texts(s), ParseCmd(Lex(s, 0))) == ParseCmd(toks)
  {
    var s := lead + Layout(toks, gaps);
    assert s[|lead|..] == Layout(toks, gaps) && s[0..|lead|] == lead;
    LexGap(s, 0, |lead|, lead);
    TokensRead(s, |lead|, toks, gaps);
    ParseMapped(Texts(s), Lex(s, 0));
  }

  // ---------------------------------------------------------------------------
  // Commands

  predicate WordOk(w: string) {
    TokOk(Word(w))
  }

  /** Every word is a nonempty string without white space and symbols. */
  predicate WordsOk(c: Cmd<string>) {
    match c
    case Exec(argv) => forall i :: 0 <= i < |argv| ==> WordOk(argv[i])
    case Redir(d, r) => WordsOk(d) && WordOk(r.file)
    case Pipe(l, r) => WordsOk(l) && WordsOk(r)
    case List(l, r) => WordsOk(l) && WordsOk(r)
    case Back(d) => WordsOk(d)
  }

  lemma {:induction false} ArgsOk(argv: seq<string>)
    requires forall i :: 0 <= i < |argv| ==> WordOk(argv[i])
    ensures AllOk(WriteArgs(argv))
  {
    if argv != [] {
      ArgsOk(argv[1..]);
    }
  }

  lemma {:induction false} RedirsOk(rs: seq<Redirection<string>>)
    requires forall i :: 0 <= i < |rs| ==> WordOk(rs[i].file)
    ensures AllOk(WriteRedirs(rs))
  {
    if rs != [] {
      RedirsOk(rs[1..]);
    }
  }

  lemma {:induction false} CoreOk(c: Cmd<string>)
    requires WordsOk(c)
    ensures WordsOk(Core(c)) && forall i :: 0 <= i < |RedirsOf(c)| ==> WordOk(RedirsOf(c)[i].file)
  {
    if c.Redir? {
      CoreOk(c.cmd);
    }
  }

  lemma {:induction false} ExecOk(c: Cmd<string>)
    requires WordsOk(c)
    ensures AllOk(WriteExec(c))
    decreases c, 1
  {
    CoreOk(c);
    RedirsOk(RedirsOf(c));
    if Core(c).Exec? {
      ArgsOk(Core(c).argv);
    } else if c.Redir? {
      CoreSmaller(c);
      LineOk(Core(c));
    } else {
      InnerOk(c);
    }
  }

  lemma {:induction false} InnerOk(c: Cmd<string>)
    requires WordsOk(c) && (c.Pipe? || c.List? || c.Back?)
    ensures AllOk(WriteInner(c))
    decreases c, 0
  {
    match c
    case List(l, r) => LineOk(l); LineOk(r);
    case Back(d) => LineOk(d);
    case Pipe(l, r) => ExecOk(l); LineOk(r);
  }

  lemma {:induction false} LineOk(c: Cmd<string>)
    requires WordsOk(c)
    ensures AllOk(WriteLine(c)) && AllOk(WriteBack(c)) && AllOk(WritePipe(c))
    decreases c, 4
  {
    ExecOk(c);
    if c.Pipe? || c.List? || c.Back? {
      InnerOk(c);
    }
    assert AllOk(WritePipe(c));
    assert AllOk(WriteBack(c));
  }

  /** For every command that fits, with words the shell can read: any text of it parses to that command. */
  lemma TextRoundTrip(c: Cmd<string>, lead: string, gaps: seq<string>)
    requires Fits(c) && WordsOk(c) && Gap(lead) && GapsOk(WriteLine(c), gaps)
    ensures var s := lead + Layout(WriteLine(c), gaps);
            var r := ParseCmd(Lex(s, 0)); r.Ok? && MapCmd(Texts(s), r.cmd) == c
  {
    LineOk(c);
    TextRead(lead, WriteLine(c), gaps);
    RoundTrip(c);
  }

  /** The same for every spelling of every line of the grammar. */
  lemma TextMeans(t: Grammar.LineT<string>, lead: string, gaps: seq<string>)
    requires Grammar.LineOk(t) && AllOk(Grammar.LineToks(t)) && Gap(lead) && GapsOk(Grammar.LineToks(t), gaps)
    ensures var s := lead + Layout(Grammar.LineToks(t), gaps);
            var r := ParseCmd(Lex(s, 0)); r.Ok? && MapCmd(Texts(s), r.cmd) == Grammar.LineMeans(t)
  {
    var toks := Grammar.LineToks(t);
    TextRead(lead, toks, gaps);
    assert Grammar.Spells(t, toks, Grammar.LineMeans(t));
    Grammar.ReadsExactly(toks, Grammar.LineMeans(t));
  }
}
