/** Writing a command tree in canonical syntax and parsing it gives the tree back. */
module ShellTrip {
  import opened Common
  import opened Shell
  import opened ShellGrammar

  // ---- canonical syntax ----

  /** A tree is its base, which is no redirection, with redirections around it. */
  function Base(t: Tree): (b: Tree)
    ensures !b.TRedir?
  {
    if t.TRedir? then Base(t.cmd) else t
  }

  function Around(t: Tree): seq<Arrow> {
    if t.TRedir? then Around(t.cmd) + [Arrow(t.file, t.dir)] else []
  }

  lemma {:induction false} BaseAround(t: Tree)
    ensures WrapTree(Base(t), Around(t)) == t
    decreases t
  {
    if t.TRedir? {
      BaseAround(t.cmd);
      assert Around(t)[..|Around(t)| - 1] == Around(t.cmd);
    }
  }

  function Size(t: Tree): nat {
    match t
    case TExec(_) => 1
    case TRedir(c, _, _) => Size(c) + 1
    case TPipe(l, r) => Size(l) + Size(r) + 1
    case TList(l, r) => Size(l) + Size(r) + 1
    case TBack(c) => Size(c) + 1
  }

  lemma {:induction false} BaseSize(t: Tree)
    ensures Size(Base(t)) <= Size(t) && (t.TRedir? ==> Size(Base(t)) < Size(t))
    decreases t
  {
    if t.TRedir? { BaseSize(t.cmd); }
  }

  /** For termination: which of the four levels writes t without parentheses, and how far off it is. */
  function Rank(t: Tree, level: nat): nat {
    match t
    case TExec(_) => level
    case TRedir(_, _, _) => level
    case TPipe(_, _) => if level == 0 then 3 else level - 1
    case TBack(_) => if level == 2 then 0 else if level == 3 then 1 else level + 2
    case TList(_, _) => if level == 3 then 0 else level + 1
  }

  function ArgItems(args: seq<string>): seq<Item> {
    if args == [] then [] else [Arg(args[0])] + ArgItems(args[1..])
  }

  function ArrowItems(rs: seq<Arrow>): seq<Item> {
    if rs == [] then [] else [Via(Sym(if rs[0].dir == In then '<' else '>'), rs[0].file)] + ArrowItems(rs[1..])
  }

  /** Words, or a line in parentheses, then the redirections. */
  function CommandOf(t: Tree): Command
    decreases Size(t), Rank(t, 0)
  {
    BaseSize(t);
    var b := Base(t);
    if b.TExec? then Plain(ArgItems(b.argv) + ArrowItems(Around(t))) else Block(LineOf(b), ArrowItems(Around(t)))
  }

  function PipelineOf(t: Tree): Pipeline
    decreases Size(t), Rank(t, 1)
  {
    match t
    case TPipe(l, r) => Into(CommandOf(l), PipelineOf(r))
    case TExec(_) => Last(CommandOf(t))
    case TRedir(_, _, _) => Last(CommandOf(t))
    case _ => Last(Block(LineOf(t), []))
  }

  /** The pipeline under the background marks, and their number. */
  function BackOf(t: Tree): (Pipeline, nat)
    decreases Size(t), Rank(t, 2)
  {
    match t
    case TBack(c) => (BackOf(c).0, BackOf(c).1 + 1)
    case TList(_, _) => (Last(Block(LineOf(t), [])), 0)
    case _ => (PipelineOf(t), 0)
  }

  function LineOf(t: Tree): Line
    decreases Size(t), Rank(t, 3)
  {
    match t
    case TList(l, r) => Then(BackOf(l).0, BackOf(l).1, LineOf(r))
    case _ => End(BackOf(t).0, BackOf(t).1)
  }

  /** Valid words and at most nine arguments. */
  ghost predicate Valid(t: Tree) {
    match t
    case TExec(argv) => |argv| < MAXARGS && forall i :: 0 <= i < |argv| ==> ValidWord(argv[i])
    case TRedir(c, f, _) => ValidWord(f) && Valid(c)
    case TPipe(l, r) => Valid(l) && Valid(r)
    case TList(l, r) => Valid(l) && Valid(r)
    case TBack(c) => Valid(c)
  }

  // ---- the canonical syntax is in the language and means the tree ----

  lemma {:induction false} ArgItemsAre(args: seq<string>)
    ensures ArgsOf(ArgItems(args)) == args && ArrowsOf(ArgItems(args)) == []
    ensures (forall i :: 0 <= i < |args| ==> ValidWord(args[i])) ==> ItemsOk(ArgItems(args))
    decreases |args|
  {
    if args != [] {
      hide ValidWord;
      ArgItemsAre(args[1..]);
      ConsItem(Arg(args[0]), ArgItems(args[1..]));
      assert args == [args[0]] + args[1..];
    }
  }

  lemma {:induction false} ArrowItemsAre(rs: seq<Arrow>)
    ensures ArgsOf(ArrowItems(rs)) == [] && ArrowsOf(ArrowItems(rs)) == rs
    ensures (forall i :: 0 <= i < |rs| ==> ValidWord(rs[i].file)) ==> ItemsOk(ArrowItems(rs))
    decreases |rs|
  {
    if rs != [] {
      hide ValidWord;
      ArrowItemsAre(rs[1..]);
      ConsItem(Via(Sym(if rs[0].dir == In then '<' else '>'), rs[0].file), ArrowItems(rs[1..]));
      assert rs == [rs[0]] + rs[1..];
    }
  }

  lemma {:induction false} ValidBase(t: Tree)
    requires Valid(t)
    ensures Valid(Base(t)) && forall i :: 0 <= i < |Around(t)| ==> ValidWord(Around(t)[i].file)
    decreases t
  {
    hide ValidWord;
    if t.TRedir? { ValidBase(t.cmd); }
  }

  lemma {:induction false} CommandFits(t: Tree)
    requires Valid(t)
    ensures CommandOk(CommandOf(t)) && CommandMeans(CommandOf(t)) == t
    decreases Size(t), Rank(t, 0)
  {
    BaseSize(t);
    BaseAround(t);
    ValidBase(t);
    ArrowItemsAre(Around(t));
    var b := Base(t);
    if b.TExec? {
      ArgItemsAre(b.argv);
      ItemsJoin(ArgItems(b.argv), ArrowItems(Around(t)));
      assert b.argv + [] == b.argv && [] + Around(t) == Around(t);
    } else {
      LineFits(b);
    }
    hide Valid, LineOf, ArgItems, ArrowItems, ItemsOk, ArgsOf, ArrowsOf, WrapTree, LineOk, LineMeans;
  }

  lemma BlockFits(t: Tree)
    requires LineOk(LineOf(t)) && LineMeans(LineOf(t)) == t
    ensures CommandOk(Block(LineOf(t), [])) && CommandMeans(Block(LineOf(t), [])) == t
  {
    hide LineOf, LineOk, LineMeans;
  }

  lemma {:induction false} PipelineFits(t: Tree)
    requires Valid(t)
    ensures PipelineOk(PipelineOf(t)) && PipelineMeans(PipelineOf(t)) == t
    decreases Size(t), Rank(t, 1)
  {
    hide CommandOf, CommandOk, CommandMeans, LineOf, LineOk, LineMeans;
    match t
    case TPipe(l, r) => CommandFits(l); PipelineFits(r);
    case TExec(_) => CommandFits(t);
    case TRedir(_, _, _) => CommandFits(t);
    case _ => LineFits(t); BlockFits(t);
  }

  lemma {:induction false} BacksOut(t: Tree, n: nat)
    ensures Backs(t, n + 1) == TBack(Backs(t, n))
    decreases n
  {
    if n > 0 { BacksOut(TBack(t), n - 1); }
  }

  lemma {:induction false} BackFits(t: Tree)
    requires Valid(t)
    ensures PipelineOk(BackOf(t).0) && Backs(PipelineMeans(BackOf(t).0), BackOf(t).1) == t
    decreases Size(t), Rank(t, 2)
  {
    hide CommandOf, CommandOk, CommandMeans, LineOf, LineOk, LineMeans;
    match t
    case TBack(c) =>
      BackFits(c);
      BacksOut(PipelineMeans(BackOf(c).0), BackOf(c).1);
    case TList(_, _) =>
      LineFits(t);
      BlockFits(t);
    case _ => PipelineFits(t);
  }

  lemma {:induction false} LineFits(t: Tree)
    requires Valid(t)
    ensures LineOk(LineOf(t)) && LineMeans(LineOf(t)) == t
    decreases Size(t), Rank(t, 3)
  {
    hide PipelineOk, PipelineMeans, Backs, BackOf;
    match t
    case TList(l, r) => BackFits(l); LineFits(r);
    case _ => BackFits(t);
  }

  // ---- writing tokens ----

  predicate ToksOk(ts: seq<Tok>) { forall i :: 0 <= i < |ts| ==> TokOk(ts[i]) }

  /** Each token followed by a space. */
  function Render(ts: seq<Tok>): string {
    if ts == [] then "" else Spell(ts[0]) + " " + Render(ts[1..])
  }

  lemma SpaceIsWhite()
    ensures ' ' in WHITESPACE
  {
    assert WHITESPACE[0] == ' ';
  }

  /** A token and the space after it, at pos. */
  lemma TokenHere(s: string, pos: nat, k: Tok)
    requires TokOk(k) && pos + |Spell(k)| < |s| && s[pos..pos + |Spell(k)|] == Spell(k) && s[pos + |Spell(k)|] == ' '
    ensures TokenAt(s, pos, pos, pos + |Spell(k)|, k)
  {
    SpaceIsWhite();
  }

  /** White space in front changes nothing. */
  lemma LexesAfter(s: string, pos: nat, ts: seq<Tok>)
    requires pos < |s| && s[pos] in WHITESPACE && Lexes(s, pos + 1, ts)
    ensures Lexes(s, pos, ts)
  {
    if ts != [] {
      var q, e :| TokenAt(s, pos + 1, q, e, ts[0]) && Lexes(s, e, ts[1..]);
      assert TokenAt(s, pos, q, e, ts[0]);
      hide TokenAt;
      LexesPush(s, pos, q, e, ts[0], ts[1..]);
      assert [ts[0]] + ts[1..] == ts;
    }
  }

  lemma RenderParts(pre: string, w: string, rest: string)
    ensures var s := pre + (w + " " + rest);
      && s == (pre + w + " ") + rest && |pre| + |w| < |s| && s[|pre|..|pre| + |w|] == w && s[|pre| + |w|] == ' '
  {
  }

  lemma LexesEnd(s: string)
    ensures Lexes(s, |s|, [])
  {
  }

  lemma {:induction false} RenderLexes(pre: string, ts: seq<Tok>)
    requires ToksOk(ts)
    ensures Lexes(pre + Render(ts), |pre|, ts)
    decreases |ts|
  {
    hide Lexes, Spell, TokOk, TokenAt;
    var s := pre + Render(ts);
    if ts == [] {
      assert s == pre;
      LexesEnd(s);
    } else {
      var w := Spell(ts[0]);
      RenderParts(pre, w, Render(ts[1..]));
      RenderLexes(pre + w + " ", ts[1..]);
      SpaceIsWhite();
      LexesAfter(s, |pre| + |w|, ts[1..]);
      TokenHere(s, |pre|, ts[0]);
      LexesPush(s, |pre|, |pre|, |pre| + |w|, ts[0], ts[1..]);
      assert [ts[0]] + ts[1..] == ts;
    }
  }

  lemma {:induction false} ItemToksOk(xs: seq<Item>)
    requires ItemsOk(xs)
    ensures ToksOk(ItemToks(xs))
    decreases |xs|
  {
    if xs != [] {
      assert ItemOk(xs[0]);
      OperatorOk();
      ItemToksOk(xs[1..]);
      hide ValidWord;
    }
  }

  lemma OperatorOk()
    ensures forall k :: IsOperator(k) ==> TokOk(k)
    ensures TokOk(Sym('(')) && TokOk(Sym(')')) && TokOk(Sym('|')) && TokOk(Sym('&')) && TokOk(Sym(';'))
  {
    assert SYMBOLS == ['<', '|', '>', '&', ';', '(', ')'];
  }

  lemma {:induction false} CommandToksOk(c: Command)
    requires CommandOk(c)
    ensures ToksOk(CommandToks(c))
    decreases c
  {
    hide TokOk, LineToks, ItemToks;
    OperatorOk();
    ItemToksOk(c.items);
    if c.Block? { LineToksOk(c.line); }
  }

  lemma {:induction false} PipelineToksOk(p: Pipeline)
    requires PipelineOk(p)
    ensures ToksOk(PipelineToks(p))
    decreases p
  {
    hide TokOk, CommandToks;
    OperatorOk();
    CommandToksOk(p.command);
    if p.Into? { PipelineToksOk(p.rest); }
  }

  lemma {:induction false} AmpsOk(n: nat)
    ensures ToksOk(Amps(n))
  {
    OperatorOk();
    if n > 0 { AmpsOk(n - 1); }
  }

  lemma {:induction false} LineToksOk(l: Line)
    requires LineOk(l)
    ensures ToksOk(LineToks(l))
    decreases l
  {
    hide TokOk, PipelineToks, Amps;
    OperatorOk();
    PipelineToksOk(l.pipeline);
    AmpsOk(l.n);
    if l.Then? { LineToksOk(l.rest); }
  }

  /** The line that says t. */
  function Canonical(t: Tree): string { Render(LineToks(LineOf(t))) }

  /** Every command tree with valid words and at most nine arguments is what parsecmd makes of its canonical line. */
  lemma RoundTrip(t: Tree)
    requires Valid(t)
    ensures ParseCmd(Canonical(t)).Some? && Reads(Canonical(t), ParseCmd(Canonical(t)).value) == t
  {
    hide LineOf, LineToks, LineOk, LineMeans, Valid, Reads, ParseCmd, Render, Lexes;
    var l := LineOf(t);
    LineFits(t);
    LineToksOk(l);
    RenderLexes("", LineToks(l));
    assert "" + Render(LineToks(l)) == Canonical(t);
    Accepted(Canonical(t), l);
  }

  // ---- and back ----

  lemma TextValid(s: string, sp: Span)
    requires SpanOk(s, sp) && '\0' !in s
    ensures ValidWord(Text(s, sp))
  {
    forall i | 0 <= i < |Text(s, sp)|
      ensures Text(s, sp)[i] !in WHITESPACE && Text(s, sp)[i] !in SYMBOLS && Text(s, sp)[i] != '\0'
    {
      CharKinds(s[sp.q + i]);
      assert s[sp.q + i] in s;
    }
  }

  lemma {:induction false} ReadsValid(s: string, c: Cmd)
    requires CmdOk(s, c) && '\0' !in s
    ensures Valid(Reads(s, c))
    decreases c
  {
    hide ValidWord, Text;
    match c
    case Exec(argv) => forall i | 0 <= i < |argv| ensures ValidWord(Text(s, argv[i])) { TextValid(s, argv[i]); }
    case Redir(cmd, file, _) => TextValid(s, file); ReadsValid(s, cmd);
    case Pipe(l, r) => ReadsValid(s, l); ReadsValid(s, r);
    case List(l, r) => ReadsValid(s, l); ReadsValid(s, r);
    case Back(cmd) => ReadsValid(s, cmd);
  }

  /** Whatever line is accepted, its tree is one that can be written, and its canonical line means the same. */
  lemma LineTripBack(s: string)
    requires '\0' !in s && ParseCmd(s).Some?
    ensures var t := Reads(s, ParseCmd(s).value);
      Valid(t) && ParseCmd(Canonical(t)).Some? && Reads(Canonical(t), ParseCmd(Canonical(t)).value) == t
  {
    hide ParseLine, Valid, Reads, Canonical;
    ParseLineOk(s, 0);
    ReadsValid(s, ParseCmd(s).value);
    RoundTrip(Reads(s, ParseCmd(s).value));
  }
}
