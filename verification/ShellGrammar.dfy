/** The language of the shell, as concrete syntax with a meaning; the parser accepts exactly that language. */
module ShellGrammar {
  import opened Common
  import opened Shell

  /** A command tree with its strings. */
  datatype Tree = TExec(argv: seq<string>) | TRedir(cmd: Tree, file: string, dir: Dir) | TPipe(left: Tree, right: Tree)
                | TList(left: Tree, right: Tree) | TBack(cmd: Tree)

  /** A redirection with its file name. */
  datatype Arrow = Arrow(file: string, dir: Dir)

  // ---- what a parsed command says ----

  function Text(s: string, sp: Span): string { if sp.q <= sp.eq <= |s| then s[sp.q..sp.eq] else "" }

  function Texts(s: string, sps: seq<Span>): (r: seq<string>)
    ensures |r| == |sps| && forall i :: 0 <= i < |r| ==> r[i] == Text(s, sps[i])
  {
    if sps == [] then [] else Texts(s, sps[..|sps| - 1]) + [Text(s, sps[|sps| - 1])]
  }

  function Reads(s: string, c: Cmd): Tree {
    match c
    case Exec(argv) => TExec(Texts(s, argv))
    case Redir(cmd, file, dir) => TRedir(Reads(s, cmd), Text(s, file), dir)
    case Pipe(l, r) => TPipe(Reads(s, l), Reads(s, r))
    case List(l, r) => TList(Reads(s, l), Reads(s, r))
    case Back(cmd) => TBack(Reads(s, cmd))
  }

  function ReadRedirs(s: string, rs: seq<Redirect>): (r: seq<Arrow>)
    ensures |r| == |rs| && forall i :: 0 <= i < |r| ==> r[i] == Arrow(Text(s, rs[i].file), rs[i].dir)
  {
    if rs == [] then [] else ReadRedirs(s, rs[..|rs| - 1]) + [Arrow(Text(s, rs[|rs| - 1].file), rs[|rs| - 1].dir)]
  }

  function WrapTree(t: Tree, rs: seq<Arrow>): Tree {
    if rs == [] then t else TRedir(WrapTree(t, rs[..|rs| - 1]), rs[|rs| - 1].file, rs[|rs| - 1].dir)
  }

  lemma {:induction false} ReadsWrap(s: string, c: Cmd, rs: seq<Redirect>)
    ensures Reads(s, Wrap(c, rs)) == WrapTree(Reads(s, c), ReadRedirs(s, rs))
    decreases |rs|
  {
    if rs != [] {
      ReadsWrap(s, c, rs[..|rs| - 1]);
      assert ReadRedirs(s, rs)[..|rs| - 1] == ReadRedirs(s, rs[..|rs| - 1]);
    }
  }

  // ---- tokens ----

  const WHITESPACE := " \t\r\n\U{000B}"
  const SYMBOLS := "<|>&;()"

  /** A symbol, the symbol '>>', or a word. */
  datatype Tok = Sym(c: char) | Append | Word(w: string)

  predicate ValidWord(w: string) {
    w != "" && forall i :: 0 <= i < |w| ==> w[i] !in WHITESPACE && w[i] !in SYMBOLS && w[i] != '\0'
  }

  predicate TokOk(k: Tok) {
    match k
    case Sym(c) => c in SYMBOLS
    case Append => true
    case Word(w) => ValidWord(w)
  }

  function Spell(k: Tok): string {
    match k
    case Sym(c) => [c]
    case Append => ">>"
    case Word(w) => w
  }

  /** After white space, the token k lies at q..e of s, and is not part of a longer one. */
  ghost predicate TokenAt(s: string, pos: nat, q: nat, e: nat, k: Tok) {
    && pos <= q < e <= |s| && (forall i :: pos <= i < q ==> s[i] in WHITESPACE) && TokOk(k) && s[q..e] == Spell(k)
    && (k.Word? && e < |s| ==> s[e] in WHITESPACE || s[e] in SYMBOLS)
    && (k == Sym('>') && e < |s| ==> s[e] != '>')
  }

  /** From pos on, s consists of the tokens ts and white space. */
  ghost predicate Lexes(s: string, pos: nat, ts: seq<Tok>)
    decreases |ts|
  {
    pos <= |s|
    && if ts == [] then forall i :: pos <= i < |s| ==> s[i] in WHITESPACE
       else exists q: nat, e: nat {:trigger TokenAt(s, pos, q, e, ts[0])} ::
         TokenAt(s, pos, q, e, ts[0]) && Lexes(s, e, ts[1..])
  }

  lemma CharKinds(c: char)
    ensures (c in WHITESPACE <==> IsSpace(c)) && (c in SYMBOLS <==> IsSymbol(c))
    ensures !(IsSpace(c) && IsSymbol(c))
  {
    assert WHITESPACE == [' ', '\t', '\r', '\n', '\U{000B}'] && SYMBOLS == ['<', '|', '>', '&', ';', '(', ')'];
  }

  /** gettoken's answer for token k. */
  ghost predicate Is(s: string, t: Token, k: Tok) {
    match k
    case Sym(c) => t.kind == c && IsSymbol(c) && t.q < |s| && s[t.q] == c
    case Append => t.kind == '+' && t.q < |s| && s[t.q] == '>'
    case Word(w) => t.kind == 'a' && t.q < t.eq <= |s| && s[t.q..t.eq] == w && IsWordChar(s[t.q])
  }

  lemma {:induction false} SkipIs(s: string, pos: nat, q: nat)
    requires pos <= q <= |s| && (forall i :: pos <= i < q ==> IsSpace(s[i])) && (q < |s| ==> !IsSpace(s[q]))
    ensures Skip(s, pos) == q
    decreases q - pos
  {
    if pos < q { SkipIs(s, pos + 1, q); }
  }

  lemma {:induction false} WordEndIs(s: string, pos: nat, e: nat)
    requires pos <= e <= |s| && (e < |s| ==> IsSpace(s[e]) || IsSymbol(s[e]))
    requires forall k :: pos <= k < e ==> !IsSpace(s[k]) && !IsSymbol(s[k])
    ensures WordEnd(s, pos) == e
    decreases e - pos
  {
    if pos < e { WordEndIs(s, pos + 1, e); }
  }

  lemma FirstChar(s: string, pos: nat, q: nat, e: nat, k: Tok)
    requires TokenAt(s, pos, q, e, k)
    ensures Skip(s, pos) == q && s[q] == Spell(k)[0] && e == q + |Spell(k)| && !IsSpace(s[q])
  {
    var w := s[q..e];
    assert s[q] == w[0] == Spell(k)[0];
    forall i | pos <= i < q ensures IsSpace(s[i]) { CharKinds(s[i]); }
    CharKinds(s[q]);
    SkipIs(s, pos, q);
  }

  /** gettoken finds the token. */
  lemma TokenFound(s: string, pos: nat, q: nat, e: nat, k: Tok)
    requires TokenAt(s, pos, q, e, k)
    ensures Is(s, GetToken(s, pos), k) && GetToken(s, pos).q == q && GetToken(s, pos).pos == Skip(s, e)
  {
    FirstChar(s, pos, q, e, k);
    CharKinds(s[q]);
    match k
    case Sym(c) =>
    case Append => assert s[q + 1] == s[q..e][1] == '>';
    case Word(w) =>
      forall i | q <= i < e ensures !IsSpace(s[i]) && !IsSymbol(s[i]) {
        assert s[i] == w[i - q];
        CharKinds(s[i]);
      }
      if e < |s| { CharKinds(s[e]); }
      WordEndIs(s, q, e);
  }

  lemma LexesPos(s: string, pos: nat, ts: seq<Tok>)
    requires Lexes(s, pos, ts)
    ensures pos <= |s|
  {
  }

  lemma LexesPush(s: string, pos: nat, q: nat, e: nat, k: Tok, ts: seq<Tok>)
    requires pos <= |s| && TokenAt(s, pos, q, e, k) && Lexes(s, e, ts)
    ensures Lexes(s, pos, [k] + ts)
  {
    hide TokenAt;
    var ts' := [k] + ts;
    assert ts'[1..] == ts && TokenAt(s, pos, q, e, ts'[0]);
  }

  lemma LexesBlank(s: string, pos: nat)
    requires pos <= |s|
    ensures Lexes(s, pos, []) <==> Skip(s, pos) == |s|
  {
    if Lexes(s, pos, []) {
      forall i | pos <= i < |s| ensures IsSpace(s[i]) { CharKinds(s[i]); }
      SkipIs(s, pos, |s|);
    } else {
      var i :| pos <= i < |s| && s[i] !in WHITESPACE;
      CharKinds(s[i]);
    }
  }

  /** Skipping white space first changes nothing. */
  lemma LexesSkip(s: string, pos: nat, ts: seq<Tok>)
    requires Lexes(s, pos, ts)
    ensures Lexes(s, Skip(s, pos), ts)
  {
    if ts == [] {
      hide Skip;
      LexesBlank(s, pos);
      PeekSettled(s, pos);
      LexesBlank(s, Skip(s, pos));
    } else {
      var q, e :| TokenAt(s, pos, q, e, ts[0]) && Lexes(s, e, ts[1..]);
      FirstChar(s, pos, q, e, ts[0]);
      assert TokenAt(s, q, q, e, ts[0]);
      hide TokenAt;
      LexesPush(s, q, q, e, ts[0], ts[1..]);
      assert [ts[0]] + ts[1..] == ts;
    }
  }

  lemma TokenIsOk(s: string, pos: nat, q: nat, e: nat, k: Tok)
    requires TokenAt(s, pos, q, e, k)
    ensures TokOk(k)
  {
  }

  /** gettoken takes the first token off. */
  lemma NextTok(s: string, pos: nat, ts: seq<Tok>)
    requires Lexes(s, pos, ts) && ts != []
    ensures pos <= |s| && Is(s, GetToken(s, pos), ts[0]) && Lexes(s, GetToken(s, pos).pos, ts[1..]) && TokOk(ts[0])
  {
    hide Is, GetToken, Skip, TokenAt, TokOk;
    var q, e :| TokenAt(s, pos, q, e, ts[0]) && Lexes(s, e, ts[1..]);
    TokenIsOk(s, pos, q, e, ts[0]);
    TokenFound(s, pos, q, e, ts[0]);
    LexesSkip(s, e, ts[1..]);
  }

  lemma NoTok(s: string, pos: nat)
    requires Lexes(s, pos, [])
    ensures pos <= |s| && GetToken(s, pos).kind == '\0' && Skip(s, pos) == |s|
  {
    LexesBlank(s, pos);
  }

  /** What peek sees. */
  lemma PeekIs(s: string, pos: nat, ts: seq<Tok>)
    requires Lexes(s, pos, ts)
    ensures pos <= |s| && (ts == [] ==> Peek(s, pos) == '\0')
    ensures ts != [] && ts[0].Sym? ==> Peek(s, pos) == ts[0].c
    ensures ts != [] && ts[0].Append? ==> Peek(s, pos) == '>'
    ensures ts != [] && ts[0].Word? ==> IsWordChar(Peek(s, pos))
  {
    if ts == [] {
      LexesBlank(s, pos);
    } else {
      hide Lexes;
      NextTok(s, pos, ts);
    }
  }

  /** The first token of the rest of a line. */
  lemma TokenThere(s: string, pos: nat) returns (k: Tok)
    requires pos <= |s| && '\0' !in s && Skip(s, pos) < |s|
    ensures TokenAt(s, pos, GetToken(s, pos).q, GetToken(s, pos).eq, k)
  {
    var t := GetToken(s, pos);
    forall i | pos <= i < t.q ensures s[i] in WHITESPACE { CharKinds(s[i]); }
    CharKinds(s[t.q]);
    assert s[t.q] in s;
    if t.kind == 'a' {
      k := Word(s[t.q..t.eq]);
      forall i | 0 <= i < |k.w| ensures k.w[i] !in WHITESPACE && k.w[i] !in SYMBOLS && k.w[i] != '\0' {
        CharKinds(k.w[i]);
        assert k.w[i] == s[t.q + i] && s[t.q + i] in s;
      }
      if t.eq < |s| { CharKinds(s[t.eq]); }
    } else if t.kind == '+' {
      k := Append;
      assert s[t.q..t.eq] == ">>";
    } else {
      k := Sym(s[t.q]);
      assert s[t.q..t.eq] == [s[t.q]];
    }
  }

  /** Every line is some list of tokens. */
  lemma {:induction false} Tokenize(s: string, pos: nat) returns (ts: seq<Tok>)
    requires pos <= |s| && '\0' !in s
    ensures Lexes(s, pos, ts)
    decreases |s| - pos
  {
    hide Lexes, TokenAt, Skip, GetToken;
    if Skip(s, pos) == |s| {
      ts := [];
      LexesBlank(s, pos);
    } else {
      var k := TokenThere(s, pos);
      var e := GetToken(s, pos).eq;
      var rest := Tokenize(s, e);
      LexesPush(s, pos, GetToken(s, pos).q, e, k, rest);
      ts := [k] + rest;
    }
  }

  lemma SameTok(s: string, t: Token, k: Tok, k': Tok)
    requires Is(s, t, k) && Is(s, t, k')
    ensures k == k'
  {
  }

  /** And only one. */
  lemma {:induction false} OneTokenList(s: string, pos: nat, ts: seq<Tok>, ts': seq<Tok>)
    requires Lexes(s, pos, ts) && Lexes(s, pos, ts')
    ensures ts == ts'
    decreases |ts|
  {
    hide Lexes, Is, GetToken, Skip;
    if ts == [] || ts' == [] {
      PeekIs(s, pos, ts);
      PeekIs(s, pos, ts');
      NoneIfZero(s, pos, ts);
      NoneIfZero(s, pos, ts');
    } else {
      NextTok(s, pos, ts);
      NextTok(s, pos, ts');
      SameTok(s, GetToken(s, pos), ts[0], ts'[0]);
      OneTokenList(s, GetToken(s, pos).pos, ts[1..], ts'[1..]);
      assert ts == [ts[0]] + ts[1..] && ts' == [ts'[0]] + ts'[1..];
    }
  }

  lemma NoneIfZero(s: string, pos: nat, ts: seq<Tok>)
    requires Lexes(s, pos, ts) && pos <= |s| && Peek(s, pos) == '\0'
    ensures ts == []
  {
    if ts != [] {
      NextTok(s, pos, ts);
      PeekIs(s, pos, ts);
    }
  }

  // ---- concrete syntax ----

  /** An argument, or a redirection: its operator and its file. */
  datatype Item = Arg(w: string) | Via(op: Tok, file: string)

  /** Words and redirections in any order, or a line in parentheses and redirections. */
  datatype Command = Plain(items: seq<Item>) | Block(line: Line, items: seq<Item>)

  datatype Pipeline = Last(command: Command) | Into(command: Command, rest: Pipeline)

  /** A pipeline with n background marks, and after a semicolon another line. */
  datatype Line = End(pipeline: Pipeline, n: nat) | Then(pipeline: Pipeline, n: nat, rest: Line)

  predicate IsOperator(k: Tok) { k == Sym('<') || k == Sym('>') || k == Append }

  predicate ItemOk(x: Item) {
    match x
    case Arg(w) => ValidWord(w)
    case Via(op, file) => IsOperator(op) && ValidWord(file)
  }

  predicate ItemsOk(xs: seq<Item>) { forall i :: 0 <= i < |xs| ==> ItemOk(xs[i]) }

  /** The arguments among the items, and the redirections, each in order. */
  function ArgsOf(xs: seq<Item>): seq<string> {
    if xs == [] then [] else (if xs[0].Arg? then [xs[0].w] else []) + ArgsOf(xs[1..])
  }

  function ArrowsOf(xs: seq<Item>): seq<Arrow> {
    if xs == [] then []
    else (if xs[0].Via? then [Arrow(xs[0].file, if xs[0].op == Sym('<') then In else Out)] else [])
         + ArrowsOf(xs[1..])
  }

  /** Fewer than MAXARGS arguments to a command, and none after a parenthesis. */
  predicate CommandOk(c: Command) {
    match c
    case Plain(xs) => ItemsOk(xs) && |ArgsOf(xs)| < MAXARGS
    case Block(l, xs) => LineOk(l) && ItemsOk(xs) && ArgsOf(xs) == []
  }

  predicate PipelineOk(p: Pipeline) { CommandOk(p.command) && (p.Into? ==> PipelineOk(p.rest)) }

  predicate LineOk(l: Line) { PipelineOk(l.pipeline) && (l.Then? ==> LineOk(l.rest)) }

  // ---- its tokens ----

  function ItemToks(xs: seq<Item>): seq<Tok> {
    if xs == [] then []
    else (match xs[0] case Arg(w) => [Word(w)] case Via(op, file) => [op, Word(file)]) + ItemToks(xs[1..])
  }

  function CommandToks(c: Command): seq<Tok> {
    match c
    case Plain(xs) => ItemToks(xs)
    case Block(l, xs) => [Sym('(')] + LineToks(l) + [Sym(')')] + ItemToks(xs)
  }

  function PipelineToks(p: Pipeline): seq<Tok> {
    match p
    case Last(c) => CommandToks(c)
    case Into(c, rest) => CommandToks(c) + [Sym('|')] + PipelineToks(rest)
  }

  function Amps(n: nat): seq<Tok> { if n == 0 then [] else [Sym('&')] + Amps(n - 1) }

  function LineToks(l: Line): seq<Tok> {
    match l
    case End(p, n) => PipelineToks(p) + Amps(n)
    case Then(p, n, rest) => PipelineToks(p) + Amps(n) + [Sym(';')] + LineToks(rest)
  }

  // ---- its meaning ----

  function CommandMeans(c: Command): Tree {
    match c
    case Plain(xs) => WrapTree(TExec(ArgsOf(xs)), ArrowsOf(xs))
    case Block(l, xs) => WrapTree(LineMeans(l), ArrowsOf(xs))
  }

  function PipelineMeans(p: Pipeline): Tree {
    match p
    case Last(c) => CommandMeans(c)
    case Into(c, rest) => TPipe(CommandMeans(c), PipelineMeans(rest))
  }

  function Backs(t: Tree, n: nat): Tree
    decreases n
  {
    if n == 0 then t else Backs(TBack(t), n - 1)
  }

  function LineMeans(l: Line): Tree {
    match l
    case End(p, n) => Backs(PipelineMeans(p), n)
    case Then(p, n, rest) => TList(Backs(PipelineMeans(p), n), LineMeans(rest))
  }

  // ---- the parser accepts the language ----

  predicate Follows(ts: seq<Tok>, set0: string) { ts == [] || (ts[0].Sym? && ts[0].c in set0) }

  predicate NoOperator(ts: seq<Tok>) { ts == [] || !IsOperator(ts[0]) }

  lemma JoinRedirs(s: string, a: seq<Redirect>, b: seq<Redirect>)
    ensures ReadRedirs(s, a + b) == ReadRedirs(s, a) + ReadRedirs(s, b)
  {
  }

  lemma JoinTexts(s: string, a: seq<Span>, x: Span)
    ensures Texts(s, a + [x]) == Texts(s, a) + [Text(s, x)]
  {
  }

  lemma AppendOne(s: string, x: Redirect, rs: seq<Redirect>)
    ensures ReadRedirs(s, [x] + rs) == [Arrow(Text(s, x.file), x.dir)] + ReadRedirs(s, rs)
  {
  }

  /** The operator, for parseredirs: what peek and gettoken make of it. */
  lemma OperatorIs(s: string, pos: nat, ts: seq<Tok>)
    requires Lexes(s, pos, ts)
    ensures pos <= |s| && (ts != [] && IsOperator(ts[0]) <==> Peek(s, pos) == '<' || Peek(s, pos) == '>')
    ensures ts != [] && IsOperator(ts[0]) ==> (GetToken(s, pos).kind == '<' <==> ts[0] == Sym('<'))
  {
    hide Lexes, GetToken, Skip, Peek;
    PeekIs(s, pos, ts);
    if ts != [] { NextTok(s, pos, ts); }
  }

  lemma {:induction false} RedirsAccepted(s: string, pos: nat, xs: seq<Item>, rest: seq<Tok>)
    requires Lexes(s, pos, ItemToks(xs) + rest) && ItemsOk(xs) && ArgsOf(xs) == [] && NoOperator(rest)
    ensures pos <= |s| && ParseRedirs(s, pos).Some?
    ensures var r := ParseRedirs(s, pos).value; ReadRedirs(s, r.rs) == ArrowsOf(xs) && Lexes(s, r.pos, rest)
    decreases |xs|
  {
    hide Lexes, GetToken, Skip, Peek, ReadRedirs;
    var ts := ItemToks(xs) + rest;
    OperatorIs(s, pos, ts);
    if xs == [] {
      assert ts == rest;
      LexesSkip(s, pos, rest);
    } else {
      assert ts == [xs[0].op] + ([Word(xs[0].file)] + (ItemToks(xs[1..]) + rest));
      NextTok(s, pos, ts);
      var tok := GetToken(s, pos);
      assert ts[1..] == [Word(xs[0].file)] + (ItemToks(xs[1..]) + rest);
      NextTok(s, tok.pos, ts[1..]);
      var f := GetToken(s, tok.pos);
      assert ts[1..][1..] == ItemToks(xs[1..]) + rest;
      RedirsAccepted(s, f.pos, xs[1..], rest);
      var more := ParseRedirs(s, f.pos).value;
      AppendOne(s, Redirect(Span(f.q, f.eq), if tok.kind == '<' then In else Out), more.rs);
    }
  }

  /** The redirections before the first argument, and the rest. */
  lemma {:induction false} SplitLead(xs: seq<Item>) returns (a: seq<Item>, b: seq<Item>)
    ensures xs == a + b && ArgsOf(a) == [] && (b == [] || b[0].Arg?) && ArgsOf(b) == ArgsOf(xs)
    ensures ArrowsOf(xs) == ArrowsOf(a) + ArrowsOf(b) && ItemToks(xs) == ItemToks(a) + ItemToks(b)
    decreases |xs|
  {
    hide ArgsOf, ArrowsOf, ItemToks;
    NoItems();
    if xs == [] || xs[0].Arg? {
      a, b := [], xs;
      Nothing(xs, ArrowsOf(xs), ItemToks(xs));
    } else {
      var x, a1 := xs[0], [];
      a1, b := SplitLead(xs[1..]);
      a := [x] + a1;
      assert xs == [x] + xs[1..];
      Assoc([x], a1, b);
      ConsRedirect(x, xs[1..]);
      ConsRedirect(x, a1);
      Assoc([Arrow(x.file, if x.op == Sym('<') then In else Out)], ArrowsOf(a1), ArrowsOf(b));
      Assoc([x.op, Word(x.file)], ItemToks(a1), ItemToks(b));
    }
  }

  lemma NoItems()
    ensures ArgsOf([]) == [] && ArrowsOf([]) == [] && ItemToks([]) == []
  {
  }

  lemma Nothing<T, U, V>(a: seq<T>, b: seq<U>, c: seq<V>)
    ensures [] + a == a && [] + b == b && [] + c == c
  {
  }

  lemma Assoc<T>(a: seq<T>, b: seq<T>, c: seq<T>)
    ensures a + (b + c) == a + b + c
  {
  }

  lemma ConsRedirect(x: Item, xs: seq<Item>)
    requires x.Via?
    ensures ArgsOf([x] + xs) == ArgsOf(xs) && ItemToks([x] + xs) == [x.op, Word(x.file)] + ItemToks(xs)
    ensures ArrowsOf([x] + xs) == [Arrow(x.file, if x.op == Sym('<') then In else Out)] + ArrowsOf(xs)
  {
    assert ([x] + xs)[1..] == xs;
  }

  lemma SplitOk(xs: seq<Item>, a: seq<Item>, b: seq<Item>)
    requires ItemsOk(xs) && xs == a + b
    ensures ItemsOk(a) && ItemsOk(b)
  {
    forall i | 0 <= i < |a| ensures ItemOk(a[i]) { assert xs[i] == a[i]; }
    forall i | 0 <= i < |b| ensures ItemOk(b[i]) { assert xs[|a| + i] == b[i]; }
  }

  lemma FirstArg(xs: seq<Item>)
    requires xs != [] && xs[0].Arg?
    ensures ArgsOf(xs) == [xs[0].w] + ArgsOf(xs[1..]) && ArrowsOf(xs) == ArrowsOf(xs[1..])
    ensures ItemToks(xs) == [Word(xs[0].w)] + ItemToks(xs[1..])
  {
  }

  /** What follows the redirections is no redirection. */
  lemma AfterLead(b: seq<Item>, rest: seq<Tok>)
    requires (b == [] || b[0].Arg?) && Follows(rest, "|)&;")
    ensures NoOperator(ItemToks(b) + rest)
  {
    if b != [] { FirstArg(b); }
  }

  lemma EndsHere(s: string, pos: nat, rest: seq<Tok>, argv: seq<Span>, rs: seq<Redirect>)
    requires Lexes(s, pos, rest) && Follows(rest, "|)&;")
    ensures pos <= |s| && ExecLoop(s, pos, argv, rs) == Some(Args(argv, rs, Skip(s, pos)))
  {
    hide Lexes, GetToken, Skip, Peek, ParseRedirs;
    PeekIs(s, pos, rest);
    if rest == [] { NoTok(s, pos); }
  }

  /** A word is taken, and then the redirections after it. */
  lemma WordTaken(s: string, pos: nat, w: string, rest: seq<Tok>, argv: seq<Span>, rs: seq<Redirect>)
    requires Lexes(s, pos, [Word(w)] + rest) && |argv| + 1 < MAXARGS
    ensures var tok := GetToken(s, pos);
      && pos <= |s| && Text(s, Span(tok.q, tok.eq)) == w && Lexes(s, tok.pos, rest)
      && (ParseRedirs(s, tok.pos).Some? ==>
            var more := ParseRedirs(s, tok.pos).value;
            ExecLoop(s, pos, argv, rs) == ExecLoop(s, more.pos, argv + [Span(tok.q, tok.eq)], rs + more.rs))
  {
    hide Lexes, GetToken, Skip, Peek, ParseRedirs;
    var ts := [Word(w)] + rest;
    PeekIs(s, pos, ts);
    NextTok(s, pos, ts);
    assert ts[1..] == rest;
  }

  lemma {:induction false} ArgsAccepted(s: string, pos: nat, xs: seq<Item>, rest: seq<Tok>,
                                        argv: seq<Span>, rs: seq<Redirect>)
    requires Lexes(s, pos, ItemToks(xs) + rest) && ItemsOk(xs) && Follows(rest, "|)&;")
    requires (xs == [] || xs[0].Arg?) && |argv| + |ArgsOf(xs)| < MAXARGS
    ensures pos <= |s| && ExecLoop(s, pos, argv, rs).Some?
    ensures var r := ExecLoop(s, pos, argv, rs).value;
      && Texts(s, r.argv) == Texts(s, argv) + ArgsOf(xs)
      && ReadRedirs(s, r.rs) == ReadRedirs(s, rs) + ArrowsOf(xs) && Lexes(s, r.pos, rest)
    decreases |xs|
  {
    hide Lexes, GetToken, Skip, Peek, ReadRedirs, Texts, ParseRedirs, ExecLoop, Text, ItemToks, ArgsOf, ArrowsOf,
      ItemOk;
    NoItems();
    if xs == [] {
      assert ItemToks(xs) + rest == rest;
      EndsHere(s, pos, rest, argv, rs);
      LexesSkip(s, pos, rest);
      assert Texts(s, argv) + [] == Texts(s, argv) && ReadRedirs(s, rs) + [] == ReadRedirs(s, rs);
    } else {
      FirstArg(xs);
      LexesPos(s, pos, ItemToks(xs) + rest);
      var w, tok := xs[0].w, GetToken(s, pos);
      var a, b := SplitLead(xs[1..]);
      SplitOk(xs[1..], a, b);
      AfterLead(b, rest);
      ItemParts(w, ItemToks(a), ItemToks(b), rest);
      WordTaken(s, pos, w, ItemToks(a) + (ItemToks(b) + rest), argv, rs);
      RedirsAccepted(s, tok.pos, a, ItemToks(b) + rest);
      var more := ParseRedirs(s, tok.pos).value;
      ArgsAccepted(s, more.pos, b, rest, argv + [Span(tok.q, tok.eq)], rs + more.rs);
      JoinRedirs(s, rs, more.rs);
      JoinTexts(s, argv, Span(tok.q, tok.eq));
      Assoc(Texts(s, argv), [w], ArgsOf(b));
      Assoc(ReadRedirs(s, rs), ArrowsOf(a), ArrowsOf(b));
    }
  }

  lemma ItemParts(w: string, a: seq<Tok>, b: seq<Tok>, rest: seq<Tok>)
    ensures [Word(w)] + (a + b) + rest == [Word(w)] + (a + (b + rest))
  {
  }

  /** What a parse function returns for t, when rest follows. */
  ghost predicate Gives(s: string, r: Option<Parsed>, t: Tree, rest: seq<Tok>) {
    r.Some? && Reads(s, r.value.cmd) == t && Lexes(s, r.value.pos, rest)
  }

  lemma PlainIs(s: string, pos: nat)
    requires pos <= |s| && Peek(s, pos) != '(' && ParseRedirs(s, pos).Some?
    requires var first := ParseRedirs(s, pos).value; ExecLoop(s, first.pos, [], first.rs).Some?
    ensures var first := ParseRedirs(s, pos).value;
      var args := ExecLoop(s, first.pos, [], first.rs).value;
      ParseExec(s, pos) == Some(Parsed(Wrap(Exec(args.argv), args.rs), args.pos))
  {
    hide Peek, ParseRedirs, ExecLoop, Wrap, ParseBlock;
  }

  lemma NoTexts(s: string)
    ensures Texts(s, []) == []
  {
  }

  lemma PlainStarts(xs: seq<Item>, rest: seq<Tok>)
    requires ItemsOk(xs) && Follows(rest, "|)&;")
    ensures ItemToks(xs) + rest != [] ==> (ItemToks(xs) + rest)[0] != Sym('(')
  {
  }

  lemma PlainAccepted(s: string, pos: nat, xs: seq<Item>, rest: seq<Tok>)
    requires Lexes(s, pos, ItemToks(xs) + rest) && CommandOk(Plain(xs)) && Follows(rest, "|)&;")
    ensures pos <= |s| && Gives(s, ParseExec(s, pos), CommandMeans(Plain(xs)), rest)
  {
    hide Lexes, GetToken, Skip, Peek, ReadRedirs, Texts, ParseRedirs, ExecLoop, ParseExec, Wrap, WrapTree, ItemToks,
      ArgsOf, ArrowsOf, ItemsOk, NoOperator;
    PlainStarts(xs, rest);
    var ts := ItemToks(xs) + rest;
    PeekIs(s, pos, ts);
    var a, b := SplitLead(xs);
    SplitOk(xs, a, b);
    AfterLead(b, rest);
    Assoc(ItemToks(a), ItemToks(b), rest);
    RedirsAccepted(s, pos, a, ItemToks(b) + rest);
    var first := ParseRedirs(s, pos).value;
    ArgsAccepted(s, first.pos, b, rest, [], first.rs);
    var args := ExecLoop(s, first.pos, [], first.rs).value;
    NoTexts(s);
    Nothing(ArgsOf(xs), ArrowsOf(xs), rest);
    PlainIs(s, pos);
    ReadsWrap(s, Exec(args.argv), args.rs);
  }

  /** A parenthesised line, once the line inside is parsed, and its redirections. */
  lemma BlockAccepted(s: string, pos: nat, t: Tree, xs: seq<Item>, rest: seq<Tok>)
    requires pos <= |s| && Peek(s, pos) == '(' && Follows(rest, "|)&;") && ItemsOk(xs) && ArgsOf(xs) == []
    requires Gives(s, ParseLine(s, GetToken(s, pos).pos), t, [Sym(')')] + (ItemToks(xs) + rest))
    ensures Gives(s, ParseExec(s, pos), WrapTree(t, ArrowsOf(xs)), rest)
  {
    hide Lexes, GetToken, Skip, Peek, Wrap, WrapTree, ItemToks, ArrowsOf, ArgsOf, ParseLine, ParseRedirs, ReadRedirs,
      Reads;
    var close := [Sym(')')] + (ItemToks(xs) + rest);
    var line := ParseLine(s, GetToken(s, pos).pos).value;
    PeekIs(s, line.pos, close);
    NextTok(s, line.pos, close);
    assert close[1..] == ItemToks(xs) + rest;
    RedirsAccepted(s, GetToken(s, line.pos).pos, xs, rest);
    ReadsWrap(s, line.cmd, ParseRedirs(s, GetToken(s, line.pos).pos).value.rs);
  }

  lemma BlockToks(l: Line, xs: seq<Item>, rest: seq<Tok>)
    ensures CommandToks(Block(l, xs)) + rest == [Sym('(')] + (LineToks(l) + ([Sym(')')] + (ItemToks(xs) + rest)))
  {
    var a, b := LineToks(l), ItemToks(xs);
    assert [Sym('(')] + a + [Sym(')')] + b + rest == [Sym('(')] + (a + ([Sym(')')] + (b + rest)));
  }

  lemma {:induction false} CommandAccepted(s: string, pos: nat, c: Command, rest: seq<Tok>)
    requires Lexes(s, pos, CommandToks(c) + rest) && CommandOk(c) && Follows(rest, "|)&;")
    ensures pos <= |s| && Gives(s, ParseExec(s, pos), CommandMeans(c), rest)
    decreases c
  {
    hide Lexes, GetToken, Skip, Peek, WrapTree, ParseLine, ParseExec, Reads, Gives, LineToks, ItemToks, LineOk;
    match c
    case Plain(xs) => PlainAccepted(s, pos, xs, rest);
    case Block(l, xs) =>
      var ts, close := CommandToks(c) + rest, [Sym(')')] + (ItemToks(xs) + rest);
      BlockToks(l, xs, rest);
      PeekIs(s, pos, ts);
      NextTok(s, pos, ts);
      assert ts[1..] == LineToks(l) + close;
      LineAccepted(s, GetToken(s, pos).pos, l, close);
      BlockAccepted(s, pos, LineMeans(l), xs, rest);
  }

  lemma {:induction false} PipelineAccepted(s: string, pos: nat, p: Pipeline, rest: seq<Tok>)
    requires Lexes(s, pos, PipelineToks(p) + rest) && PipelineOk(p) && Follows(rest, ")&;")
    ensures pos <= |s| && Gives(s, ParsePipe(s, pos), PipelineMeans(p), rest)
    decreases p
  {
    hide Lexes, GetToken, Skip, Peek, ParseExec, CommandToks, CommandOk, CommandMeans;
    match p
    case Last(c) =>
      CommandAccepted(s, pos, c, rest);
      PeekIs(s, ParseExec(s, pos).value.pos, rest);
    case Into(c, p') =>
      var more := [Sym('|')] + (PipelineToks(p') + rest);
      assert PipelineToks(p) + rest == CommandToks(c) + more;
      hide PipelineToks;
      CommandAccepted(s, pos, c, more);
      var left := ParseExec(s, pos).value;
      PeekIs(s, left.pos, more);
      NextTok(s, left.pos, more);
      assert more[1..] == PipelineToks(p') + rest;
      PipelineAccepted(s, GetToken(s, left.pos).pos, p', rest);
  }

  lemma {:induction false} BacksAccepted(s: string, pos: nat, cmd: Cmd, n: nat, rest: seq<Tok>)
    requires Lexes(s, pos, Amps(n) + rest) && Follows(rest, ");")
    ensures pos <= |s|
    ensures var r := BackLoop(s, pos, cmd); Reads(s, r.cmd) == Backs(Reads(s, cmd), n) && Lexes(s, r.pos, rest)
    decreases n
  {
    hide Lexes, GetToken, Skip, Peek;
    var ts := Amps(n) + rest;
    PeekIs(s, pos, ts);
    if n == 0 {
      assert ts == rest;
      LexesSkip(s, pos, rest);
    } else {
      assert ts == [Sym('&')] + (Amps(n - 1) + rest);
      NextTok(s, pos, ts);
      assert ts[1..] == Amps(n - 1) + rest;
      BacksAccepted(s, GetToken(s, pos).pos, Back(cmd), n - 1, rest);
    }
  }

  lemma AmpsFollow(n: nat, rest: seq<Tok>)
    requires Follows(rest, ");")
    ensures Follows(Amps(n) + rest, ")&;")
  {
  }

  lemma {:induction false} LineAccepted(s: string, pos: nat, l: Line, rest: seq<Tok>)
    requires Lexes(s, pos, LineToks(l) + rest) && LineOk(l) && Follows(rest, ")")
    ensures pos <= |s| && Gives(s, ParseLine(s, pos), LineMeans(l), rest)
    decreases l
  {
    hide Lexes, GetToken, Skip, Peek, ParsePipe, BackLoop, PipelineToks, PipelineOk, PipelineMeans, Amps, Backs;
    var p, n := l.pipeline, l.n;
    var after := if l.End? then rest else [Sym(';')] + (LineToks(l.rest) + rest);
    assert LineToks(l) + rest == PipelineToks(p) + (Amps(n) + after);
    AmpsFollow(n, after);
    PipelineAccepted(s, pos, p, Amps(n) + after);
    var pipe := ParsePipe(s, pos).value;
    BacksAccepted(s, pipe.pos, pipe.cmd, n, after);
    var back := BackLoop(s, pipe.pos, pipe.cmd);
    PeekIs(s, back.pos, after);
    if l.Then? {
      NextTok(s, back.pos, after);
      assert after[1..] == LineToks(l.rest) + rest;
      LineAccepted(s, GetToken(s, back.pos).pos, l.rest, rest);
    }
  }

  /** A line of the language is accepted, with its meaning. */
  lemma Accepted(s: string, l: Line)
    requires Lexes(s, 0, LineToks(l)) && LineOk(l)
    ensures ParseCmd(s).Some? && Reads(s, ParseCmd(s).value) == LineMeans(l)
  {
    hide Lexes, ParseLine, Reads, LineToks, LineOk, Skip;
    assert LineToks(l) + [] == LineToks(l);
    LineAccepted(s, 0, l, []);
    NoTok(s, ParseLine(s, 0).value.pos);
  }

  // ---- the parser accepts nothing else ----

  lemma {:induction false} ItemsJoin(a: seq<Item>, b: seq<Item>)
    ensures ArgsOf(a + b) == ArgsOf(a) + ArgsOf(b) && ArrowsOf(a + b) == ArrowsOf(a) + ArrowsOf(b)
    ensures ItemToks(a + b) == ItemToks(a) + ItemToks(b) && (ItemsOk(a) && ItemsOk(b) ==> ItemsOk(a + b))
    decreases |a|
  {
    if a == [] {
      assert a + b == b;
    } else {
      assert (a + b)[0] == a[0] && (a + b)[1..] == a[1..] + b;
      ItemsJoin(a[1..], b);
      ItemStep(a);
      ItemStep(a + b);
      hide ArgsOf, ArrowsOf, ItemToks;
      Assoc(OneArgs(a[0]), ArgsOf(a[1..]), ArgsOf(b));
      Assoc(OneArrows(a[0]), ArrowsOf(a[1..]), ArrowsOf(b));
      Assoc(OneToks(a[0]), ItemToks(a[1..]), ItemToks(b));
    }
  }

  function OneArgs(x: Item): seq<string> { if x.Arg? then [x.w] else [] }

  function OneArrows(x: Item): seq<Arrow> {
    if x.Via? then [Arrow(x.file, if x.op == Sym('<') then In else Out)] else []
  }

  function OneToks(x: Item): seq<Tok> { match x case Arg(w) => [Word(w)] case Via(op, file) => [op, Word(file)] }

  lemma ItemStep(xs: seq<Item>)
    requires xs != []
    ensures ArgsOf(xs) == OneArgs(xs[0]) + ArgsOf(xs[1..]) && ArrowsOf(xs) == OneArrows(xs[0]) + ArrowsOf(xs[1..])
    ensures ItemToks(xs) == OneToks(xs[0]) + ItemToks(xs[1..])
  {
  }

  lemma ConsItem(x: Item, xs: seq<Item>)
    ensures ArgsOf([x] + xs) == OneArgs(x) + ArgsOf(xs) && ArrowsOf([x] + xs) == OneArrows(x) + ArrowsOf(xs)
    ensures ItemToks([x] + xs) == OneToks(x) + ItemToks(xs) && (ItemOk(x) && ItemsOk(xs) ==> ItemsOk([x] + xs))
  {
    assert ([x] + xs)[1..] == xs;
  }

  /** A word token, by what gettoken says of it. */
  lemma WordThere(s: string, pos: nat, ts: seq<Tok>)
    requires Lexes(s, pos, ts)
    ensures pos <= |s| && (GetToken(s, pos).kind == '\0' <==> ts == [])
    ensures GetToken(s, pos).kind == 'a' <==> ts != [] && ts[0].Word?
    ensures GetToken(s, pos).kind == 'a' ==>
      && ts[0].w == Text(s, Span(GetToken(s, pos).q, GetToken(s, pos).eq)) && ValidWord(ts[0].w)
      && Lexes(s, GetToken(s, pos).pos, ts[1..])
  {
    hide Lexes, GetToken, Skip, ValidWord;
    if ts == [] { NoTok(s, pos); } else { NextTok(s, pos, ts); }
  }

  lemma {:induction false} RedirsInLanguage(s: string, pos: nat, ts: seq<Tok>) returns (xs: seq<Item>, rest: seq<Tok>)
    requires Lexes(s, pos, ts) && pos <= |s| && ParseRedirs(s, pos).Some?
    ensures ts == ItemToks(xs) + rest && ItemsOk(xs) && ArgsOf(xs) == [] && NoOperator(rest)
    ensures ReadRedirs(s, ParseRedirs(s, pos).value.rs) == ArrowsOf(xs) && Lexes(s, ParseRedirs(s, pos).value.pos, rest)
    decreases |s| - pos
  {
    hide Lexes, GetToken, Skip, Peek, ReadRedirs, ItemToks, ArgsOf, ArrowsOf, Text, ValidWord;
    OperatorIs(s, pos, ts);
    NoItems();
    if Peek(s, pos) == '<' || Peek(s, pos) == '>' {
      PeekBefore(s, pos);
      NextTok(s, pos, ts);
      var tok := GetToken(s, pos);
      WordThere(s, tok.pos, ts[1..]);
      var f := GetToken(s, tok.pos);
      var x := Via(ts[0], ts[1].w);
      var ys;
      ys, rest := RedirsInLanguage(s, f.pos, ts[1..][1..]);
      xs := [x] + ys;
      ConsItem(x, ys);
      assert ts == [ts[0], ts[1]] + ts[1..][1..];
      Assoc(OneToks(x), ItemToks(ys), rest);
      AppendOne(s, Redirect(Span(f.q, f.eq), if tok.kind == '<' then In else Out),
                ParseRedirs(s, f.pos).value.rs);
    } else {
      xs, rest := [], ts;
      assert [] + ts == ts;
      LexesSkip(s, pos, ts);
      NoRedirs(s);
    }
  }

  lemma NoRedirs(s: string)
    ensures ReadRedirs(s, []) == []
  {
  }

  /** parseexec's loop stops at the end, or at a symbol that ends a command. */
  lemma StopsAt(s: string, pos: nat, ts: seq<Tok>)
    requires Lexes(s, pos, ts)
    ensures pos <= |s| && (EndsExec(Peek(s, pos)) || GetToken(s, pos).kind == '\0' <==> Follows(ts, "|)&;"))
  {
    hide Lexes, GetToken, Skip, Peek;
    PeekIs(s, pos, ts);
    WordThere(s, pos, ts);
  }

  lemma {:induction false} ArgsInLanguage(s: string, pos: nat, ts: seq<Tok>, argv: seq<Span>, rs: seq<Redirect>)
    returns (xs: seq<Item>, rest: seq<Tok>)
    requires Lexes(s, pos, ts) && pos <= |s| && ExecLoop(s, pos, argv, rs).Some? && |argv| < MAXARGS
    ensures ts == ItemToks(xs) + rest && ItemsOk(xs) && Follows(rest, "|)&;")
    ensures var r := ExecLoop(s, pos, argv, rs).value;
      && Texts(s, r.argv) == Texts(s, argv) + ArgsOf(xs) && |r.argv| < MAXARGS
      && ReadRedirs(s, r.rs) == ReadRedirs(s, rs) + ArrowsOf(xs) && Lexes(s, r.pos, rest)
    decreases |s| - pos
  {
    hide Lexes, GetToken, Skip, Peek, ReadRedirs, Texts, ParseRedirs, Text, ItemToks, ArgsOf, ArrowsOf, ValidWord,
      Follows;
    StopsAt(s, pos, ts);
    NoItems();
    var tok := GetToken(s, pos);
    if EndsExec(Peek(s, pos)) || tok.kind == '\0' {
      xs, rest := [], ts;
      assert [] + ts == ts;
      LexesSkip(s, pos, ts);
      assert Texts(s, argv) + [] == Texts(s, argv) && ReadRedirs(s, rs) + [] == ReadRedirs(s, rs);
    } else {
      WordMoves(s, pos);
      WordThere(s, pos, ts);
      var w := ts[0].w;
      var a, mid := RedirsInLanguage(s, tok.pos, ts[1..]);
      var more := ParseRedirs(s, tok.pos).value;
      var b;
      b, rest := ArgsInLanguage(s, more.pos, mid, argv + [Span(tok.q, tok.eq)], rs + more.rs);
      ItemsJoin(a, b);
      ConsItem(Arg(w), a + b);
      xs := [Arg(w)] + (a + b);
      assert ts == [ts[0]] + ts[1..];
      ItemParts(w, ItemToks(a), ItemToks(b), rest);
      JoinRedirs(s, rs, more.rs);
      JoinTexts(s, argv, Span(tok.q, tok.eq));
      Nothing(ArgsOf(b), ArrowsOf(a) + ArrowsOf(b), rest);
      Assoc(Texts(s, argv), [w], ArgsOf(b));
      Assoc(ReadRedirs(s, rs), ArrowsOf(a), ArrowsOf(b));
    }
  }

  lemma PlainParts(s: string, pos: nat)
    requires pos <= |s| && Peek(s, pos) != '(' && ParseExec(s, pos).Some?
    ensures ParseRedirs(s, pos).Some?
    ensures var first := ParseRedirs(s, pos).value;
      ExecLoop(s, first.pos, [], first.rs).Some?
  {
    hide Peek, ParseRedirs, ExecLoop, Wrap, ParseBlock;
  }

  lemma PlainInLanguage(s: string, pos: nat, ts: seq<Tok>) returns (xs: seq<Item>, rest: seq<Tok>)
    requires Lexes(s, pos, ts) && pos <= |s| && Peek(s, pos) != '(' && ParseExec(s, pos).Some?
    ensures ts == ItemToks(xs) + rest && CommandOk(Plain(xs)) && Follows(rest, "|)&;")
    ensures Gives(s, ParseExec(s, pos), CommandMeans(Plain(xs)), rest)
  {
    hide Lexes, GetToken, Skip, Peek, ReadRedirs, Texts, ParseRedirs, ExecLoop, ParseExec, Wrap, WrapTree, ItemToks,
      ArgsOf, ArrowsOf, ItemsOk, NoOperator, Follows;
    PlainParts(s, pos);
    PlainIs(s, pos);
    var a, mid := RedirsInLanguage(s, pos, ts);
    var first := ParseRedirs(s, pos).value;
    var b;
    b, rest := ArgsInLanguage(s, first.pos, mid, [], first.rs);
    var args := ExecLoop(s, first.pos, [], first.rs).value;
    xs := a + b;
    ItemsJoin(a, b);
    Assoc(ItemToks(a), ItemToks(b), rest);
    NoTexts(s);
    Nothing(ArgsOf(b), rest, rest);
    ReadsWrap(s, Exec(args.argv), args.rs);
  }

  lemma BlockParts(s: string, pos: nat)
    requires pos <= |s| && Peek(s, pos) == '(' && ParseExec(s, pos).Some?
    ensures var q := GetToken(s, pos).pos;
      && ParseLine(s, q).Some? && Peek(s, ParseLine(s, q).value.pos) == ')'
      && var c := GetToken(s, ParseLine(s, q).value.pos).pos;
         ParseRedirs(s, c).Some?
         && ParseExec(s, pos)
            == Some(Parsed(Wrap(ParseLine(s, q).value.cmd, ParseRedirs(s, c).value.rs), ParseRedirs(s, c).value.pos))
  {
    hide Peek, GetToken, ParseRedirs, Wrap, ParseLine;
  }

  /** A symbol that peek sees is the first token. */
  lemma SymbolThere(s: string, pos: nat, ts: seq<Tok>, c: char)
    requires Lexes(s, pos, ts) && pos <= |s| && Peek(s, pos) == c && c in "(|&;)"
    ensures ts != [] && ts[0] == Sym(c) && Lexes(s, GetToken(s, pos).pos, ts[1..]) && ts == [Sym(c)] + ts[1..]
    ensures GetToken(s, pos).pos > pos
  {
    hide Lexes, GetToken, Skip;
    PeekIs(s, pos, ts);
    PeekBefore(s, pos);
    if ts != [] { NextTok(s, pos, ts); }
  }

  lemma {:induction false} CommandInLanguage(s: string, pos: nat, ts: seq<Tok>) returns (c: Command, rest: seq<Tok>)
    requires Lexes(s, pos, ts) && pos <= |s| && ParseExec(s, pos).Some?
    ensures ts == CommandToks(c) + rest && CommandOk(c) && Gives(s, ParseExec(s, pos), CommandMeans(c), rest)
    decreases |s| - pos, 2
  {
    hide Lexes, GetToken, Skip, Peek, ReadRedirs, ParseRedirs, ParseExec, ParseLine, Wrap, WrapTree, ItemToks, ArgsOf,
      ArrowsOf, ItemsOk, NoOperator, LineToks, LineOk, LineMeans, Reads;
    if Peek(s, pos) != '(' {
      var xs;
      xs, rest := PlainInLanguage(s, pos, ts);
      c := Plain(xs);
    } else {
      SymbolThere(s, pos, ts, '(');
      BlockParts(s, pos);
      var q := GetToken(s, pos).pos;
      var l, mid := LineInLanguage(s, q, ts[1..]);
      var line := ParseLine(s, q).value;
      SymbolThere(s, line.pos, mid, ')');
      var xs;
      xs, rest := RedirsInLanguage(s, GetToken(s, line.pos).pos, mid[1..]);
      c := Block(l, xs);
      BlockToks(l, xs, rest);
      ReadsWrap(s, line.cmd, ParseRedirs(s, GetToken(s, line.pos).pos).value.rs);
    }
  }

  lemma {:induction false} PipelineInLanguage(s: string, pos: nat, ts: seq<Tok>) returns (p: Pipeline, rest: seq<Tok>)
    requires Lexes(s, pos, ts) && pos <= |s| && ParsePipe(s, pos).Some?
    ensures ts == PipelineToks(p) + rest && PipelineOk(p) && Gives(s, ParsePipe(s, pos), PipelineMeans(p), rest)
    decreases |s| - pos, 3
  {
    hide Lexes, GetToken, Skip, Peek, ParseExec, CommandToks, CommandOk, CommandMeans;
    var c, mid := CommandInLanguage(s, pos, ts);
    var left := ParseExec(s, pos).value;
    if Peek(s, left.pos) == '|' {
      SymbolThere(s, left.pos, mid, '|');
      var p';
      p', rest := PipelineInLanguage(s, GetToken(s, left.pos).pos, mid[1..]);
      p := Into(c, p');
      assert CommandToks(c) + ([Sym('|')] + (PipelineToks(p') + rest))
          == CommandToks(c) + [Sym('|')] + PipelineToks(p') + rest;
    } else {
      p, rest := Last(c), mid;
    }
  }

  lemma {:induction false} BacksInLanguage(s: string, pos: nat, ts: seq<Tok>, cmd: Cmd) returns (n: nat, rest: seq<Tok>)
    requires Lexes(s, pos, ts) && pos <= |s|
    ensures ts == Amps(n) + rest
    ensures var r := BackLoop(s, pos, cmd); Reads(s, r.cmd) == Backs(Reads(s, cmd), n) && Lexes(s, r.pos, rest)
    decreases |s| - pos
  {
    hide Lexes, GetToken, Skip, Peek;
    if Peek(s, pos) == '&' {
      SymbolThere(s, pos, ts, '&');
      n, rest := BacksInLanguage(s, GetToken(s, pos).pos, ts[1..], Back(cmd));
      assert [Sym('&')] + (Amps(n) + rest) == Amps(n + 1) + rest;
      n := n + 1;
    } else {
      n, rest := 0, ts;
      assert [] + ts == ts;
      LexesSkip(s, pos, ts);
    }
  }

  lemma {:induction false} LineInLanguage(s: string, pos: nat, ts: seq<Tok>) returns (l: Line, rest: seq<Tok>)
    requires Lexes(s, pos, ts) && pos <= |s| && ParseLine(s, pos).Some?
    ensures ts == LineToks(l) + rest && LineOk(l) && Gives(s, ParseLine(s, pos), LineMeans(l), rest)
    decreases |s| - pos, 4
  {
    hide Lexes, GetToken, Skip, Peek, ParsePipe, BackLoop, PipelineToks, PipelineOk, PipelineMeans, Amps, Backs;
    var p, mid := PipelineInLanguage(s, pos, ts);
    var pipe := ParsePipe(s, pos).value;
    var n, after := BacksInLanguage(s, pipe.pos, mid, pipe.cmd);
    var back := BackLoop(s, pipe.pos, pipe.cmd);
    if Peek(s, back.pos) == ';' {
      SymbolThere(s, back.pos, after, ';');
      var l';
      l', rest := LineInLanguage(s, GetToken(s, back.pos).pos, after[1..]);
      l := Then(p, n, l');
      assert PipelineToks(p) + (Amps(n) + ([Sym(';')] + (LineToks(l') + rest)))
          == PipelineToks(p) + Amps(n) + [Sym(';')] + LineToks(l') + rest;
    } else {
      l, rest := End(p, n), after;
      Assoc(PipelineToks(p), Amps(n), after);
    }
  }

  /** Every accepted line is in the language, and means what the parser makes of it. */
  lemma InLanguage(s: string) returns (l: Line)
    requires '\0' !in s && ParseCmd(s).Some?
    ensures Lexes(s, 0, LineToks(l)) && LineOk(l) && LineMeans(l) == Reads(s, ParseCmd(s).value)
  {
    hide Lexes, ParseLine, Reads, LineToks, LineOk, LineMeans, Skip;
    var ts := Tokenize(s, 0);
    var rest;
    l, rest := LineInLanguage(s, 0, ts);
    var pos := ParseLine(s, 0).value.pos;
    LexesBlank(s, pos);
    OneTokenList(s, pos, rest, []);
    assert LineToks(l) + [] == LineToks(l);
  }

  /** s is a line of the language that means t. */
  ghost predicate Says(s: string, t: Tree) {
    exists l: Line {:trigger LineOk(l)} :: LineOk(l) && Lexes(s, 0, LineToks(l)) && LineMeans(l) == t
  }

  /** parsecmd accepts exactly the lines of the language, and gives each its one meaning. */
  lemma ParsesExactly(s: string, t: Tree)
    requires '\0' !in s
    ensures ParseCmd(s).Some? && Reads(s, ParseCmd(s).value) == t <==> Says(s, t)
  {
    hide ParseCmd, Reads, Lexes, LineToks, LineOk, LineMeans;
    if ParseCmd(s).Some? && Reads(s, ParseCmd(s).value) == t {
      var l := InLanguage(s);
    }
    if Says(s, t) {
      var l: Line :| LineOk(l) && Lexes(s, 0, LineToks(l)) && LineMeans(l) == t;
      Accepted(s, l);
    }
  }
}
