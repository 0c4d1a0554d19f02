/**
  The grammar that sh.c reads, written as trees with every choice of spelling in them, and
  that the parser accepts exactly the lines that have a tree and gives what the tree means.
 */
module ShellGrammar {
  import opened ShellModel
  import opened ShellRoundTrip

  /** A word or a redirection of a simple command, in any order. */
  datatype Item<W> = Arg(w: W) | To(sym: char, file: W)

  datatype ExecT<W> = Simple(items: seq<Item<W>>) | Block(line: LineT<W>, items: seq<Item<W>>)

  datatype PipeT<W> = One(e: ExecT<W>) | More(e: ExecT<W>, next: PipeT<W>)

  datatype LineT<W> = Last(p: PipeT<W>, amps: nat) | Then(p: PipeT<W>, amps: nat, next: LineT<W>)

  // ---------------------------------------------------------------------------
  // Which trees there are

  predicate ItemOk<W>(i: Item<W>) {
    i.Arg? || i.sym in {'<', '>', '+'}
  }

  predicate ItemsOk<W>(items: seq<Item<W>>) {
    forall k :: 0 <= k < |items| ==> ItemOk(items[k])
  }

  predicate ExecOk<W>(t: ExecT<W>) {
    match t
    case Simple(items) => ItemsOk(items) && |ArgsOf(items)| < MAXARGS
    case Block(l, items) => LineOk(l) && ItemsOk(items) && ArgsOf(items) == []
  }

  predicate PipeOk<W>(t: PipeT<W>) {
    ExecOk(t.e) && (t.More? ==> PipeOk(t.next))
  }

  predicate LineOk<W>(t: LineT<W>) {
    PipeOk(t.p) && (t.Then? ==> LineOk(t.next))
  }

  // ---------------------------------------------------------------------------
  // How a tree is spelled

  function ItemToks<W>(i: Item<W>): seq<Tok<W>> {
    if i.Arg? then [Word(i.w)] else [Sym(i.sym), Word(i.file)]
  }

  function ItemsToks<W>(items: seq<Item<W>>): seq<Tok<W>> {
    if items == [] then [] else ItemToks(items[0]) + ItemsToks(items[1..])
  }

  function Amps<W>(n: nat): seq<Tok<W>> {
    if n == 0 then [] else [Sym('&')] + Amps(n - 1)
  }

  function ExecToks<W>(t: ExecT<W>): seq<Tok<W>> {
    match t
    case Simple(items) => ItemsToks(items)
    case Block(l, items) => [Sym('(')] + (LineToks(l) + ([Sym(')')] + ItemsToks(items)))
  }

  function PipeToks<W>(t: PipeT<W>): seq<Tok<W>> {
    match t
    case One(e) => ExecToks(e)
    case More(e, next) => ExecToks(e) + ([Sym('|')] + PipeToks(next))
  }

  function LineToks<W>(t: LineT<W>): seq<Tok<W>> {
    match t
    case Last(p, n) => PipeToks(p) + Amps(n)
    case Then(p, n, next) => PipeToks(p) + (Amps(n) + ([Sym(';')] + LineToks(next)))
  }

  // ---------------------------------------------------------------------------
  // What it means

  function ItemArgs<W>(i: Item<W>): seq<W> {
    if i.Arg? then [i.w] else []
  }

  function ArgsOf<W>(items: seq<Item<W>>): seq<W> {
    if items == [] then [] else ItemArgs(items[0]) + ArgsOf(items[1..])
  }

  /** A less-than sign reads from the file; one greater-than sign or two write to it. */
  function Directed<W>(i: Item<W>): Redirection<W>
    requires i.To?
  {
    Redirection(if i.sym == '<' then In else Out, i.file)
  }

  function ItemRedirs<W>(i: Item<W>): seq<Redirection<W>> {
    if i.To? then [Directed(i)] else []
  }

  function RedirsIn<W>(items: seq<Item<W>>): seq<Redirection<W>> {
    if items == [] then [] else ItemRedirs(items[0]) + RedirsIn(items[1..])
  }

  function Backs<W>(c: Cmd<W>, n: nat): Cmd<W> {
    if n == 0 then c else Back(Backs(c, n - 1))
  }

  function ExecMeans<W>(t: ExecT<W>): Cmd<W> {
    match t
    case Simple(items) => Wrap(Exec(ArgsOf(items)), RedirsIn(items))
    case Block(l, items) => Wrap(LineMeans(l), RedirsIn(items))
  }

  function PipeMeans<W>(t: PipeT<W>): Cmd<W> {
    match t
    case One(e) => ExecMeans(e)
    case More(e, next) => Pipe(ExecMeans(e), PipeMeans(next))
  }

  function LineMeans<W>(t: LineT<W>): Cmd<W> {
    match t
    case Last(p, n) => Backs(PipeMeans(p), n)
    case Then(p, n, next) => List(Backs(PipeMeans(p), n), LineMeans(next))
  }

  // ---------------------------------------------------------------------------
  // Every spelling is read as what it means

  /** What parseexec does once parseredirs is called: the rest of the redirections and words. */
  function Onward<W>(argv: seq<W>, rs: seq<Redirection<W>>, toks: seq<Tok<W>>): Result<W> {
    match ParseRedirs(rs, toks)
    case NoFile => Err(MissingFile)
    case Redirs(rs2, rest) => ParseArgs(argv, rs2, rest)
  }

  lemma OnwardTo<W>(argv: seq<W>, rs: seq<Redirection<W>>, sym: char, file: W, toks: seq<Tok<W>>)
    requires sym in {'<', '>', '+'}
    ensures Onward(argv, rs, [Sym(sym), Word(file)] + toks) == Onward(argv, rs + [Directed(To(sym, file))], toks)
    ensures ParseRedirs(rs, [Sym(sym), Word(file)] + toks) == ParseRedirs(rs + [Directed(To(sym, file))], toks)
  {
    assert ([Sym(sym), Word(file)] + toks)[2..] == toks;
  }

  lemma OnwardArg<W>(argv: seq<W>, rs: seq<Redirection<W>>, w: W, toks: seq<Tok<W>>)
    requires |argv| + 1 < MAXARGS
    ensures Onward(argv, rs, [Word(w)] + toks) == Onward(argv + [w], rs, toks)
  {
    assert ([Word(w)] + toks)[1..] == toks;
  }

  lemma Rejoin<T>(a: seq<T>, b: seq<T>, x: T, c: seq<T>, rest: seq<T>)
    ensures a + (b + ([x] + c)) + rest == a + (b + ([x] + (c + rest)))
  {
    Assoc(a, b + ([x] + c), rest);
    Assoc(b, [x] + c, rest);
    Assoc([x], c, rest);
  }

  lemma PipeSpelled<W>(e: ExecT<W>, next: PipeT<W>, rest: seq<Tok<W>>)
    ensures PipeToks(More(e, next)) + rest == ExecToks(e) + ([Sym('|')] + (PipeToks(next) + rest))
  {
    hide ExecToks;
    Assoc(ExecToks(e), [Sym('|')] + PipeToks(next), rest);
    Assoc([Sym('|')], PipeToks(next), rest);
  }

  lemma LineSpelled<W>(p: PipeT<W>, n: nat, next: LineT<W>, rest: seq<Tok<W>>)
    ensures LineToks(Last(p, n)) + rest == PipeToks(p) + (Amps(n) + rest)
    ensures LineToks(Then(p, n, next)) + rest == PipeToks(p) + (Amps(n) + ([Sym(';')] + (LineToks(next) + rest)))
  {
    hide PipeToks, Amps;
    Assoc(PipeToks(p), Amps(n), rest);
    Rejoin(PipeToks(p), Amps(n), Sym(';'), LineToks(next), rest);
  }

  lemma Assoc<T>(a: seq<T>, b: seq<T>, c: seq<T>)
    ensures a + (b + c) == a + b + c
  {
  }

  /** The first item, and what the others add to the words and redirections before it. */
  lemma FirstItem<W>(argv: seq<W>, rs: seq<Redirection<W>>, items: seq<Item<W>>, rest: seq<Tok<W>>)
    requires items != []
    ensures var i, more := items[0], items[1..];
            && ItemsToks(items) + rest == ItemToks(i) + (ItemsToks(more) + rest)
            && argv + ArgsOf(items) == argv + ItemArgs(i) + ArgsOf(more)
            && rs + RedirsIn(items) == rs + ItemRedirs(i) + RedirsIn(more)
            && |ArgsOf(items)| == |ItemArgs(i)| + |ArgsOf(more)|
  {
    var i, more := items[0], items[1..];
    assert ItemsToks(items) == ItemToks(i) + ItemsToks(more);
    assert ArgsOf(items) == ItemArgs(i) + ArgsOf(more) && RedirsIn(items) == ItemRedirs(i) + RedirsIn(more);
    hide ItemsToks, ItemToks, ArgsOf, ItemArgs, RedirsIn, ItemRedirs;
    Assoc(ItemToks(i), ItemsToks(more), rest);
    Assoc(argv, ItemArgs(i), ArgsOf(more));
    Assoc(rs, ItemRedirs(i), RedirsIn(more));
  }

  lemma {:induction false} ItemsRead<W>(argv: seq<W>, rs: seq<Redirection<W>>, items: seq<Item<W>>, rest: seq<Tok<W>>)
    requires ItemsOk(items) && |argv| + |ArgsOf(items)| < MAXARGS && StopsExec(rest)
    ensures Onward(argv, rs, ItemsToks(items) + rest) ==
            Ok(Wrap(Exec(argv + ArgsOf(items)), rs + RedirsIn(items)), rest)
    decreases |items|
  {
    if items == [] {
      assert ItemsToks(items) + rest == rest && argv + ArgsOf(items) == argv && rs + RedirsIn(items) == rs;
    } else {
      hide Onward, Wrap, ItemsToks, ArgsOf, RedirsIn, Directed;
      var i, toks := items[0], ItemsToks(items[1..]) + rest;
      FirstItem(argv, rs, items, rest);
      assert argv + [] == argv && rs + [] == rs;
      if i.Arg? {
        OnwardArg(argv, rs, i.w, toks);
        ItemsRead(argv + [i.w], rs, items[1..], rest);
      } else {
        assert ItemOk(i) && i == To(i.sym, i.file);
        OnwardTo(argv, rs, i.sym, i.file, toks);
        ItemsRead(argv, rs + [Directed(i)], items[1..], rest);
      }
    }
  }

  lemma {:induction false} RedirsRead<W>(rs: seq<Redirection<W>>, items: seq<Item<W>>, rest: seq<Tok<W>>)
    requires ItemsOk(items) && ArgsOf(items) == [] && StopsExec(rest)
    ensures ParseRedirs(rs, ItemsToks(items) + rest) == Redirs(rs + RedirsIn(items), rest)
    decreases |items|
  {
    if items == [] {
      assert ItemsToks(items) + rest == rest && rs + RedirsIn(items) == rs;
    } else {
      hide ParseRedirs, ItemsToks, ArgsOf, RedirsIn, Directed;
      var i, toks := items[0], ItemsToks(items[1..]) + rest;
      FirstItem([], rs, items, rest);
      assert ItemOk(i) && i == To(i.sym, i.file);
      OnwardTo([], rs, i.sym, i.file, toks);
      RedirsRead(rs + [Directed(i)], items[1..], rest);
    }
  }

  lemma SimpleIs<W>(toks: seq<Tok<W>>)
    requires !Starts(toks, {'('})
    ensures ParseExec(toks) == Onward([], [], toks)
  {
    ExecParts(toks);
  }

  lemma ItemsStart<W>(items: seq<Item<W>>, rest: seq<Tok<W>>)
    requires ItemsOk(items) && StopsExec(rest)
    ensures !Starts(ItemsToks(items) + rest, {'('})
  {
    if items == [] {
      assert ItemsToks(items) + rest == rest;
    } else {
      assert ItemOk(items[0]);
      assert (ItemsToks(items) + rest)[0] == ItemToks(items[0])[0];
    }
  }

  lemma SimpleRead<W>(items: seq<Item<W>>, rest: seq<Tok<W>>)
    requires ItemsOk(items) && |ArgsOf(items)| < MAXARGS && StopsExec(rest)
    ensures ParseExec(ItemsToks(items) + rest) == Ok(Wrap(Exec(ArgsOf(items)), RedirsIn(items)), rest)
  {
    hide ParseExec, Onward, Wrap, ItemsToks, ArgsOf, RedirsIn;
    ItemsStart(items, rest);
    SimpleIs(ItemsToks(items) + rest);
    ItemsRead([], [], items, rest);
    assert [] + ArgsOf(items) == ArgsOf(items) && [] + RedirsIn(items) == RedirsIn(items);
  }

  lemma {:induction false} ExecRead<W>(t: ExecT<W>, rest: seq<Tok<W>>)
    requires ExecOk(t) && StopsExec(rest)
    ensures ParseExec(ExecToks(t) + rest) == Ok(ExecMeans(t), rest)
    decreases t, 1
  {
    hide ParseExec, ParseRedirs, ParseLine, Wrap, ItemsToks, ArgsOf, RedirsIn, LineToks;
    match t
    case Simple(items) =>
      SimpleRead(items, rest);
    case Block(l, items) =>
      var after := [Sym(')')] + (ItemsToks(items) + rest);
      Rejoin([Sym('(')], LineToks(l), Sym(')'), ItemsToks(items), rest);
      LineRead(l, after);
      RedirsRead([], items, rest);
      assert [] + RedirsIn(items) == RedirsIn(items);
      var toks := [Sym('(')] + (LineToks(l) + after);
      assert toks[1..] == LineToks(l) + after && after[1..] == ItemsToks(items) + rest;
      BlockIs(toks, LineMeans(l), after, RedirsIn(items), rest);
  }

  lemma BlockIs<W>(toks: seq<Tok<W>>, c: Cmd<W>, after: seq<Tok<W>>, rs: seq<Redirection<W>>, rest: seq<Tok<W>>)
    requires Starts(toks, {'('}) && ParseLine(toks[1..]) == Ok(c, after) && Starts(after, {')'})
    requires ParseRedirs([], after[1..]) == Redirs(rs, rest)
    ensures ParseExec(toks) == Ok(Wrap(c, rs), rest)
  {
  }

  lemma {:induction false} PipeRead<W>(t: PipeT<W>, rest: seq<Tok<W>>)
    requires PipeOk(t) && StopsPipe(rest)
    ensures ParsePipe(PipeToks(t) + rest) == Ok(PipeMeans(t), rest)
    decreases t, 1
  {
    ExecStops(rest);
    match t
    case One(e) =>
      ExecRead(e, rest);
      hide ParseExec, ExecToks, ExecMeans;
    case More(e, next) =>
      hide ParsePipe, ParseExec, ExecToks, ExecMeans;
      PipeSpelled(e, next, rest);
      hide PipeToks;
      var after := [Sym('|')] + (PipeToks(next) + rest);
      ExecRead(e, after);
      PipeRead(next, rest);
      assert after[1..] == PipeToks(next) + rest;
      PipeStep(ExecToks(e) + after, ExecMeans(e), after, PipeMeans(next), rest);
  }

  lemma ExecStops<W>(rest: seq<Tok<W>>)
    requires StopsPipe(rest)
    ensures StopsExec(rest)
  {
  }

  lemma {:induction false} AmpsRead<W>(c: Cmd<W>, k: nat, n: nat, rest: seq<Tok<W>>)
    requires !Starts(rest, {'&'})
    ensures ParseBacks(Backs(c, k), Amps(n) + rest) == (Backs(c, k + n), rest)
    decreases n
  {
    if n == 0 {
      assert Amps(n) + rest == rest;
    } else {
      assert (Amps(n) + rest)[0] == Sym('&') && (Amps(n) + rest)[1..] == Amps(n - 1) + rest;
      AmpsRead(c, k + 1, n - 1, rest);
    }
  }

  lemma AmpsStop<W>(n: nat, rest: seq<Tok<W>>)
    requires StopsLine(rest) || Starts(rest, {';'})
    ensures StopsPipe(Amps(n) + rest)
  {
    assert n == 0 ==> Amps(n) + rest == rest;
  }

  lemma LineIs<W>(toks: seq<Tok<W>>, c: Cmd<W>, after: seq<Tok<W>>, d: Cmd<W>, rest: seq<Tok<W>>)
    requires ParsePipe(toks) == Ok(c, after) && ParseBacks(c, after) == (d, rest)
    ensures !Starts(rest, {';'}) ==> ParseLine(toks) == Ok(d, rest)
    ensures Starts(rest, {';'}) ==>
              match ParseLine(rest[1..])
              case Err(e) => ParseLine(toks) == Err(e)
              case Ok(r, end) => ParseLine(toks) == Ok(List(d, r), end)
  {
    BacksShorter(c, after);
    hide ParsePipe;
  }

  lemma {:induction false} LineRead<W>(t: LineT<W>, rest: seq<Tok<W>>)
    requires LineOk(t) && StopsLine(rest)
    ensures ParseLine(LineToks(t) + rest) == Ok(LineMeans(t), rest)
    decreases t, 1
  {
    hide ParseLine, LineToks;
    match t
    case Last(p, n) =>
      LineSpelled(p, n, t, rest);
      FirstRead(p, n, rest);
    case Then(p, n, next) =>
      LineSpelled(p, n, next, rest);
      var after := [Sym(';')] + (LineToks(next) + rest);
      FirstRead(p, n, after);
      assert after[1..] == LineToks(next) + rest;
      LineRead(next, rest);
  }

  /** A pipeline and its ampersands, then whatever comes after. */
  lemma {:induction false} FirstRead<W>(p: PipeT<W>, n: nat, after: seq<Tok<W>>)
    requires PipeOk(p) && (StopsLine(after) || Starts(after, {';'}))
    ensures var toks := PipeToks(p) + (Amps(n) + after);
            if !Starts(after, {';'}) then ParseLine(toks) == Ok(Backs(PipeMeans(p), n), after)
            else
              match ParseLine(after[1..])
              case Err(e) => ParseLine(toks) == Err(e)
              case Ok(r, end) => ParseLine(toks) == Ok(List(Backs(PipeMeans(p), n), r), end)
    decreases p, 2
  {
    hide ParseLine, ParsePipe, ParseBacks, Amps, PipeToks;
    var c := PipeMeans(p);
    AmpsStop(n, after);
    PipeRead(p, Amps(n) + after);
    AmpsRead(c, 0, n, after);
    LineIs(PipeToks(p) + (Amps(n) + after), c, Amps(n) + after, Backs(c, n), after);
  }

  // ---------------------------------------------------------------------------
  // Whatever is read has a tree

  lemma {:induction false} RedirsTree<W>(rs: seq<Redirection<W>>, toks: seq<Tok<W>>) returns (items: seq<Item<W>>)
    requires ParseRedirs(rs, toks).Redirs?
    ensures var r := ParseRedirs(rs, toks);
            && ItemsOk(items) && ArgsOf(items) == []
            && toks == ItemsToks(items) + r.rest && r.rs == rs + RedirsIn(items)
    decreases |toks|
  {
    items := [];
    if Starts(toks, {'<', '>', '+'}) {
      hide ItemsToks, ArgsOf, RedirsIn;
      var i := To(toks[0].c, toks[1].w);
      var more := RedirsTree(rs + [Directed(i)], toks[2..]);
      items := [i] + more;
      FirstItem([], rs, items, ParseRedirs(rs, toks).rest);
      assert items[1..] == more && toks == [toks[0], toks[1]] + toks[2..];
    }
  }

  lemma {:induction false} ToksConcat<W>(a: seq<Item<W>>, b: seq<Item<W>>)
    ensures ItemsToks(a + b) == ItemsToks(a) + ItemsToks(b)
    decreases |a|
  {
    hide ItemToks;
    if a == [] {
      assert a + b == b;
    } else {
      assert (a + b)[0] == a[0] && (a + b)[1..] == a[1..] + b;
      ToksConcat(a[1..], b);
      Assoc(ItemToks(a[0]), ItemsToks(a[1..]), ItemsToks(b));
    }
  }

  lemma {:induction false} ArgsConcat<W>(a: seq<Item<W>>, b: seq<Item<W>>)
    ensures ArgsOf(a + b) == ArgsOf(a) + ArgsOf(b)
    decreases |a|
  {
    hide ItemArgs;
    if a == [] {
      assert a + b == b;
    } else {
      assert (a + b)[0] == a[0] && (a + b)[1..] == a[1..] + b;
      ArgsConcat(a[1..], b);
      Assoc(ItemArgs(a[0]), ArgsOf(a[1..]), ArgsOf(b));
    }
  }

  lemma {:induction false} RedirsConcat<W>(a: seq<Item<W>>, b: seq<Item<W>>)
    ensures RedirsIn(a + b) == RedirsIn(a) + RedirsIn(b)
    decreases |a|
  {
    hide ItemRedirs;
    if a == [] {
      assert a + b == b;
    } else {
      assert (a + b)[0] == a[0] && (a + b)[1..] == a[1..] + b;
      RedirsConcat(a[1..], b);
      Assoc(ItemRedirs(a[0]), RedirsIn(a[1..]), RedirsIn(b));
    }
  }

  /** A word, the redirections after it, and the rest, put together. */
  lemma Joined<W>(argv: seq<W>, rs: seq<Redirection<W>>, w: W, reds: seq<Item<W>>, more: seq<Item<W>>,
                  rest: seq<Tok<W>>)
    requires ArgsOf(reds) == []
    ensures var items := [Arg(w)] + (reds + more);
            && ItemsToks(items) + rest == [Word(w)] + (ItemsToks(reds) + (ItemsToks(more) + rest))
            && argv + ArgsOf(items) == argv + [w] + ArgsOf(more) && |ArgsOf(items)| == 1 + |ArgsOf(more)|
            && rs + RedirsIn(items) == rs + RedirsIn(reds) + RedirsIn(more)
  {
    var items := [Arg(w)] + (reds + more);
    FirstItem(argv, rs, items, rest);
    assert items[1..] == reds + more;
    assert ItemArgs(Arg(w)) == [w] && ItemRedirs(Arg(w)) == [] && ItemToks(Arg(w)) == [Word(w)];
    hide ItemsToks, ArgsOf, RedirsIn, ItemToks, ItemArgs, ItemRedirs;
    ToksConcat(reds, more);
    ArgsConcat(reds, more);
    RedirsConcat(reds, more);
    assert [] + ArgsOf(more) == ArgsOf(more) && rs + [] == rs;
    Assoc(ItemsToks(reds), ItemsToks(more), rest);
    Assoc(rs, RedirsIn(reds), RedirsIn(more));
  }

  lemma {:induction false} ArgsTree<W>(argv: seq<W>, rs: seq<Redirection<W>>, toks: seq<Tok<W>>)
    returns (items: seq<Item<W>>)
    requires ParseArgs(argv, rs, toks).Ok? && |argv| < MAXARGS
    ensures var r := ParseArgs(argv, rs, toks);
            && ItemsOk(items) && |argv| + |ArgsOf(items)| < MAXARGS && toks == ItemsToks(items) + r.rest
            && r.cmd == Wrap(Exec(argv + ArgsOf(items)), rs + RedirsIn(items))
    decreases |toks|
  {
    hide ParseRedirs, Wrap;
    items := [];
    if toks == [] || Starts(toks, {'|', ')', '&', ';'}) {
      assert argv + ArgsOf(items) == argv && rs + RedirsIn(items) == rs;
    } else {
      hide ItemsToks, ArgsOf, RedirsIn;
      var w, r := toks[0].w, ParseRedirs(rs, toks[1..]);
      var reds := RedirsTree(rs, toks[1..]);
      var more := ArgsTree(argv + [w], r.rs, r.rest);
      items := [Arg(w)] + (reds + more);
      Joined(argv, rs, w, reds, more, ParseArgs(argv, rs, toks).rest);
      assert toks == [Word(w)] + toks[1..];
    }
  }

  lemma SimpleTree<W>(toks: seq<Tok<W>>) returns (items: seq<Item<W>>)
    requires !Starts(toks, {'('}) && ParseExec(toks).Ok?
    ensures ExecOk(Simple(items)) && toks == ItemsToks(items) + ParseExec(toks).rest
    ensures ParseExec(toks).cmd == ExecMeans(Simple(items))
  {
    ExecParts(toks);
    hide ParseExec, ParseArgs, ParseRedirs, Wrap, ItemsToks, ArgsOf, RedirsIn;
    var none: seq<Redirection<W>> := [];
    var r := ParseRedirs(none, toks);
    var reds := RedirsTree(none, toks);
    var more := ArgsTree([], r.rs, r.rest);
    items := reds + more;
    ToksConcat(reds, more);
    ArgsConcat(reds, more);
    RedirsConcat(reds, more);
    assert [] + ArgsOf(more) == ArgsOf(more) && none + RedirsIn(reds) == RedirsIn(reds);
    Assoc(ItemsToks(reds), ItemsToks(more), ParseExec(toks).rest);
  }

  lemma {:induction false} ExecTree<W>(toks: seq<Tok<W>>) returns (t: ExecT<W>)
    requires ParseExec(toks).Ok?
    ensures ExecOk(t) && toks == ExecToks(t) + ParseExec(toks).rest && ParseExec(toks).cmd == ExecMeans(t)
    decreases |toks|, 1
  {
    if Starts(toks, {'('}) {
      BlockParts(toks);
      hide ParseExec, ParseBlock, ParseLine, ParseRedirs, Wrap, ItemsToks, ArgsOf, RedirsIn, LineToks, ItemsOk, LineOk;
      hide LineMeans;
      var l := ParseLine(toks[1..]);
      var line := LineTree(toks[1..]);
      var items := RedirsTree([], l.rest[1..]);
      t := Block(line, items);
      assert [] + RedirsIn(items) == RedirsIn(items);
      Rejoin([Sym('(')], LineToks(line), Sym(')'), ItemsToks(items), ParseExec(toks).rest);
      Cons(toks);
      Cons(l.rest);
    } else {
      var items := SimpleTree(toks);
      t := Simple(items);
    }
  }

  lemma Cons<T>(s: seq<T>)
    requires s != []
    ensures s == [s[0]] + s[1..]
  {
  }

  lemma PipeParts<W>(toks: seq<Tok<W>>)
    requires ParsePipe(toks).Ok?
    ensures var l := ParseExec(toks);
            && l.Ok?
            && if !Starts(l.rest, {'|'}) then ParsePipe(toks) == l
               else ParsePipe(l.rest[1..]).Ok?
                    && ParsePipe(toks) == Ok(Pipe(l.cmd, ParsePipe(l.rest[1..]).cmd), ParsePipe(l.rest[1..]).rest)
  {
  }

  lemma {:induction false} PipeTree<W>(toks: seq<Tok<W>>) returns (t: PipeT<W>)
    requires ParsePipe(toks).Ok?
    ensures PipeOk(t) && toks == PipeToks(t) + ParsePipe(toks).rest && ParsePipe(toks).cmd == PipeMeans(t)
    decreases |toks|, 2
  {
    PipeParts(toks);
    hide ParsePipe, ParseExec, ExecToks, ExecMeans, ExecOk;
    var l := ParseExec(toks);
    var e := ExecTree(toks);
    t := One(e);
    if Starts(l.rest, {'|'}) {
      var next := PipeTree(l.rest[1..]);
      t := More(e, next);
      PipeSpelled(e, next, ParsePipe(toks).rest);
      hide PipeToks;
      Cons(l.rest);
    }
  }

  lemma {:induction false} AmpsTree<W>(c: Cmd<W>, k: nat, toks: seq<Tok<W>>) returns (n: nat)
    ensures var b := ParseBacks(Backs(c, k), toks); b.0 == Backs(c, k + n) && toks == Amps(n) + b.1
    decreases |toks|
  {
    n := 0;
    if Starts(toks, {'&'}) {
      n := AmpsTree(c, k + 1, toks[1..]);
      n := n + 1;
    }
  }

  lemma LineParts<W>(toks: seq<Tok<W>>)
    requires ParseLine(toks).Ok?
    ensures var p := ParsePipe(toks);
            && p.Ok?
            && var b := ParseBacks(p.cmd, p.rest);
            && |b.1| <= |toks|
            && if !Starts(b.1, {';'}) then ParseLine(toks) == Ok(b.0, b.1)
               else ParseLine(b.1[1..]).Ok?
                    && ParseLine(toks) == Ok(List(b.0, ParseLine(b.1[1..]).cmd), ParseLine(b.1[1..]).rest)
  {
    var p := ParsePipe(toks);
    if p.Ok? {
      BacksShorter(p.cmd, p.rest);
    }
  }

  lemma {:induction false} LineTree<W>(toks: seq<Tok<W>>) returns (t: LineT<W>)
    requires ParseLine(toks).Ok?
    ensures LineOk(t) && toks == LineToks(t) + ParseLine(toks).rest && ParseLine(toks).cmd == LineMeans(t)
    decreases |toks|, 3
  {
    LineParts(toks);
    hide ParseLine, ParsePipe, ParseBacks, PipeToks, PipeMeans, Amps, LineToks, PipeOk;
    var p := ParsePipe(toks);
    var pipe := PipeTree(toks);
    var n := AmpsTree(p.cmd, 0, p.rest);
    var b := ParseBacks(p.cmd, p.rest);
    t := Last(pipe, n);
    LineSpelled(pipe, n, t, ParseLine(toks).rest);
    if Starts(b.1, {';'}) {
      var next := LineTree(b.1[1..]);
      t := Then(pipe, n, next);
      LineSpelled(pipe, n, next, ParseLine(toks).rest);
      Cons(b.1);
    }
  }

  /** Tree `t` is spelled `toks` and means `c`. */
  ghost predicate Spells<W>(t: LineT<W>, toks: seq<Tok<W>>, c: Cmd<W>) {
    LineOk(t) && LineToks(t) == toks && LineMeans(t) == c
  }

  /** The parser gives command `c` for a line exactly if the line is a spelling of `c`. */
  lemma ReadsExactly<W(!new)>(toks: seq<Tok<W>>, c: Cmd<W>)
    ensures ParseCmd(toks) == Ok(c, []) <==> exists t :: Spells(t, toks, c)
  {
    hide ParseLine, LineOk, LineToks, LineMeans;
    if ParseCmd(toks) == Ok(c, []) {
      var t := LineTree(toks);
      assert LineToks(t) + [] == LineToks(t);
      assert Spells(t, toks, c);
    }
    forall t | Spells(t, toks, c)
      ensures ParseCmd(toks) == Ok(c, [])
    {
      LineRead(t, []);
      assert LineToks(t) + [] == LineToks(t);
    }
  }

  // ---------------------------------------------------------------------------
  // One greater-than sign or two

  function PlainTok<W>(t: Tok<W>): Tok<W> {
    if t.Sym? && t.c == '+' then Sym('>') else t
  }

  /** The line with one sign wherever it has two. */
  function Plain<W>(toks: seq<Tok<W>>): (r: seq<Tok<W>>)
    ensures |r| == |toks| && forall i :: 0 <= i < |r| ==> r[i] == PlainTok(toks[i])
  {
    seq(|toks|, i requires 0 <= i < |toks| => PlainTok(toks[i]))
  }

  function PlainResult<W>(r: Result<W>): Result<W> {
    if r.Ok? then r.(rest := Plain(r.rest)) else r
  }

  lemma PlainStarts<W>(toks: seq<Tok<W>>, cs: set<char>)
    requires '+' in cs <==> '>' in cs
    ensures Starts(Plain(toks), cs) <==> Starts(toks, cs)
    ensures forall n :: 0 <= n <= |toks| ==> Plain(toks)[n..] == Plain(toks[n..])
  {
  }

  lemma {:induction false} RedirsPlain<W>(rs: seq<Redirection<W>>, toks: seq<Tok<W>>)
    ensures var r, m := ParseRedirs(rs, toks), ParseRedirs(rs, Plain(toks));
            if r.NoFile? then m.NoFile? else m == Redirs(r.rs, Plain(r.rest))
    decreases |toks|
  {
    PlainStarts(toks, {'<', '>', '+'});
    if Starts(toks, {'<', '>', '+'}) && |toks| >= 2 && toks[1].Word? {
      RedirsPlain(rs + [Directed(To(toks[0].c, toks[1].w))], toks[2..]);
    }
  }

  lemma {:induction false} ArgsPlain<W>(argv: seq<W>, rs: seq<Redirection<W>>, toks: seq<Tok<W>>)
    ensures ParseArgs(argv, rs, Plain(toks)) == PlainResult(ParseArgs(argv, rs, toks))
    decreases |toks|
  {
    PlainStarts(toks, {'|', ')', '&', ';'});
    if toks != [] && toks[0].Word? && |argv| + 1 < MAXARGS {
      RedirsPlain(rs, toks[1..]);
      var r := ParseRedirs(rs, toks[1..]);
      if r.Redirs? {
        ArgsPlain(argv + [toks[0].w], r.rs, r.rest);
      }
    }
  }

  lemma {:induction false} ExecPlain<W>(toks: seq<Tok<W>>)
    ensures ParseExec(Plain(toks)) == PlainResult(ParseExec(toks))
    decreases |toks|, 1
  {
    PlainStarts(toks, {'('});
    if Starts(toks, {'('}) {
      BlockPlain(toks);
    } else {
      ExecParts(toks);
      ExecParts(Plain(toks));
      hide ParseExec, ParseArgs, ParseRedirs;
      RedirsPlain([], toks);
      var r := ParseRedirs([], toks);
      if r.Redirs? {
        ArgsPlain([], r.rs, r.rest);
      }
    }
  }

  lemma {:induction false} BlockPlain<W>(toks: seq<Tok<W>>)
    requires Starts(toks, {'('})
    ensures Starts(Plain(toks), {'('}) && ParseBlock(Plain(toks)) == PlainResult(ParseBlock(toks))
    decreases |toks|, 0
  {
    PlainStarts(toks, {'('});
    LinePlain(toks[1..]);
    var l := ParseLine(toks[1..]);
    if l.Ok? {
      PlainStarts(l.rest, {')'});
      if Starts(l.rest, {')'}) {
        RedirsPlain([], l.rest[1..]);
      }
    }
    hide ParseLine, ParseRedirs, Wrap;
  }

  lemma {:induction false} PipePlain<W>(toks: seq<Tok<W>>)
    ensures ParsePipe(Plain(toks)) == PlainResult(ParsePipe(toks))
    decreases |toks|, 2
  {
    ExecPlain(toks);
    var l := ParseExec(toks);
    if l.Ok? {
      PlainStarts(l.rest, {'|'});
      if Starts(l.rest, {'|'}) {
        PipePlain(l.rest[1..]);
      }
    }
  }

  lemma {:induction false} BacksPlain<W>(c: Cmd<W>, toks: seq<Tok<W>>)
    ensures ParseBacks(c, Plain(toks)) == (ParseBacks(c, toks).0, Plain(ParseBacks(c, toks).1))
    decreases |toks|
  {
    PlainStarts(toks, {'&'});
    if Starts(toks, {'&'}) {
      BacksPlain(Back(c), toks[1..]);
    }
  }

  lemma {:induction false} LinePlain<W>(toks: seq<Tok<W>>)
    ensures ParseLine(Plain(toks)) == PlainResult(ParseLine(toks))
    decreases |toks|, 3
  {
    PipePlain(toks);
    var p := ParsePipe(toks);
    if p.Ok? {
      BacksShorter(p.cmd, p.rest);
      BacksPlain(p.cmd, p.rest);
      var b := ParseBacks(p.cmd, p.rest);
      PlainStarts(b.1, {';'});
      if Starts(b.1, {';'}) {
        LinePlain(b.1[1..]);
      }
    }
  }

  /** For every line, accepted or not: one sign for two gives the same command or the same panic. */
  lemma AppendIsWrite<W>(toks: seq<Tok<W>>)
    ensures ParseCmd(Plain(toks)) == ParseCmd(toks)
  {
    LinePlain(toks);
  }
}
