/**
 * The parser of sh.c.  s is the line before its terminating zero and a position is an index into it, so the
 * end of the line, es, is |s|.  A failed parse is a panic.
 */
module Shell {
  import opened Common

  const MAXARGS := 10

  predicate IsSpace(c: char) { c == ' ' || c == '\t' || c == '\r' || c == '\n' || c == '\U{000B}' }

  predicate IsSymbol(c: char) { c == '<' || c == '|' || c == '>' || c == '&' || c == ';' || c == '(' || c == ')' }

  predicate IsWordChar(c: char) { !IsSpace(c) && !IsSymbol(c) && c != '\0' }

  // ---- tokens ----

  /** Past the white space. */
  function Skip(s: string, pos: nat): (r: nat)
    requires pos <= |s|
    ensures pos <= r <= |s| && (r < |s| ==> !IsSpace(s[r]))
    ensures forall k :: pos <= k < r ==> IsSpace(s[k])
    decreases |s| - pos
  {
    if pos < |s| && IsSpace(s[pos]) then Skip(s, pos + 1) else pos
  }

  lemma {:induction false} SkipTwice(s: string, pos: nat)
    requires pos <= |s|
    ensures Skip(s, Skip(s, pos)) == Skip(s, pos)
    decreases |s| - pos
  {
    if pos < |s| && IsSpace(s[pos]) { SkipTwice(s, pos + 1); }
  }

  function WordEnd(s: string, pos: nat): (r: nat)
    requires pos <= |s|
    ensures pos <= r <= |s| && (r < |s| ==> IsSpace(s[r]) || IsSymbol(s[r]))
    ensures forall k :: pos <= k < r ==> !IsSpace(s[k]) && !IsSymbol(s[k])
    decreases |s| - pos
  {
    if pos < |s| && !IsSpace(s[pos]) && !IsSymbol(s[pos]) then WordEnd(s, pos + 1) else pos
  }

  /** gettoken's result: the kind, the token's extent, and where the next one is looked for. */
  datatype Token = Token(kind: char, q: nat, eq: nat, pos: nat)

  function GetToken(s: string, pos: nat): (t: Token)
    requires pos <= |s|
    ensures pos <= t.q <= t.eq <= t.pos <= |s| && (t.q < |s| ==> t.q < t.eq) && t.q == Skip(s, pos)
    ensures t.kind == 'a' ==> SpanOk(s, Span(t.q, t.eq))
  {
    var q := Skip(s, pos);
    if q == |s| then Token('\0', q, q, q)
    else if s[q] == '>' && q + 1 < |s| && s[q + 1] == '>' then Token('+', q, q + 2, Skip(s, q + 2))
    else if IsSymbol(s[q]) then Token(s[q], q, q + 1, Skip(s, q + 1))
    else WordEndAfter(s, q); Token('a', q, WordEnd(s, q), Skip(s, WordEnd(s, q)))
  }

  lemma WordEndAfter(s: string, q: nat)
    requires q < |s| && !IsSpace(s[q]) && !IsSymbol(s[q])
    ensures WordEnd(s, q) > q
  {
  }

  /** The next character that is not white space; zero at the end. */
  function Peek(s: string, pos: nat): char
    requires pos <= |s|
  {
    if Skip(s, pos) < |s| then s[Skip(s, pos)] else '\0'
  }

  /** Skipping white space first changes nothing that the parser sees. */
  lemma PeekSettled(s: string, pos: nat)
    requires pos <= |s|
    ensures pos <= Skip(s, pos) <= |s| && Skip(s, Skip(s, pos)) == Skip(s, pos)
    ensures Peek(s, Skip(s, pos)) == Peek(s, pos) && GetToken(s, Skip(s, pos)) == GetToken(s, pos)
  {
    SkipTwice(s, pos);
  }

  // ---- commands ----

  /** Where a string lies in the line. */
  datatype Span = Span(q: nat, eq: nat)

  /** A whole word: it ends at the end of the line, at white space or at a symbol. */
  ghost predicate SpanOk(s: string, sp: Span) {
    && sp.q < sp.eq <= |s| && (sp.eq < |s| ==> IsSpace(s[sp.eq]) || IsSymbol(s[sp.eq]))
    && forall k :: sp.q <= k < sp.eq ==> !IsSpace(s[k]) && !IsSymbol(s[k])
  }

  /** '<' opens a file for reading as fd 0; '>' and '>>' alike for writing and creation as fd 1. */
  datatype Dir = In | Out

  datatype Cmd = Exec(argv: seq<Span>) | Redir(cmd: Cmd, file: Span, dir: Dir) | Pipe(left: Cmd, right: Cmd)
               | List(left: Cmd, right: Cmd) | Back(cmd: Cmd)

  datatype Redirect = Redirect(file: Span, dir: Dir)

  /** Each redirection wraps the command so far. */
  function Wrap(cmd: Cmd, rs: seq<Redirect>): Cmd {
    if rs == [] then cmd else Redir(Wrap(cmd, rs[..|rs| - 1]), rs[|rs| - 1].file, rs[|rs| - 1].dir)
  }

  datatype Parsed = Parsed(cmd: Cmd, pos: nat)

  datatype Redirs = Redirs(rs: seq<Redirect>, pos: nat)

  function ParseRedirs(s: string, pos: nat): (r: Option<Redirs>)
    requires pos <= |s|
    ensures r.Some? ==> pos <= r.value.pos <= |s|
    decreases |s| - pos
  {
    var c := Peek(s, pos);
    if c != '<' && c != '>' then Some(Redirs([], Skip(s, pos)))
    else
      var tok := GetToken(s, pos);
      var f := GetToken(s, tok.pos);
      if f.kind != 'a' then None
      else
        var more := ParseRedirs(s, f.pos);
        if more.None? then None
        else Some(Redirs([Redirect(Span(f.q, f.eq), if tok.kind == '<' then In else Out)] + more.value.rs,
                         more.value.pos))
  }

  datatype Args = Args(argv: seq<Span>, rs: seq<Redirect>, pos: nat)

  predicate EndsExec(c: char) { c == '|' || c == ')' || c == '&' || c == ';' }

  /** parseexec's loop, with what it has collected so far. */
  function ExecLoop(s: string, pos: nat, argv: seq<Span>, rs: seq<Redirect>): (r: Option<Args>)
    requires pos <= |s|
    ensures r.Some? ==> pos <= r.value.pos <= |s|
    decreases |s| - pos
  {
    var tok := GetToken(s, pos);
    if EndsExec(Peek(s, pos)) || tok.kind == '\0' then Some(Args(argv, rs, Skip(s, pos)))
    else if tok.kind != 'a' || |argv| + 1 >= MAXARGS then None
    else
      var more := ParseRedirs(s, tok.pos);
      if more.None? then None
      else ExecLoop(s, more.value.pos, argv + [Span(tok.q, tok.eq)], rs + more.value.rs)
  }

  function ParseExec(s: string, pos: nat): (r: Option<Parsed>)
    requires pos <= |s|
    ensures r.Some? ==> pos <= r.value.pos <= |s|
    decreases |s| - pos, 2
  {
    if Peek(s, pos) == '(' then ParseBlock(s, pos)
    else
      var first := ParseRedirs(s, pos);
      if first.None? then None
      else
        var args := ExecLoop(s, first.value.pos, [], first.value.rs);
        if args.None? then None else Some(Parsed(Wrap(Exec(args.value.argv), args.value.rs), args.value.pos))
  }

  function ParseBlock(s: string, pos: nat): (r: Option<Parsed>)
    requires pos <= |s|
    ensures r.Some? ==> pos <= r.value.pos <= |s|
    decreases |s| - pos, 1
  {
    if Peek(s, pos) != '(' then None
    else
      var line := ParseLine(s, GetToken(s, pos).pos);
      if line.None? || Peek(s, line.value.pos) != ')' then None
      else
        var rs := ParseRedirs(s, GetToken(s, line.value.pos).pos);
        if rs.None? then None else Some(Parsed(Wrap(line.value.cmd, rs.value.rs), rs.value.pos))
  }

  function ParsePipe(s: string, pos: nat): (r: Option<Parsed>)
    requires pos <= |s|
    ensures r.Some? ==> pos <= r.value.pos <= |s|
    decreases |s| - pos, 3
  {
    var left := ParseExec(s, pos);
    if left.None? || Peek(s, left.value.pos) != '|' then left
    else
      var right := ParsePipe(s, GetToken(s, left.value.pos).pos);
      if right.None? then None else Some(Parsed(Pipe(left.value.cmd, right.value.cmd), right.value.pos))
  }

  /** parseline's loop over '&'. */
  function BackLoop(s: string, pos: nat, cmd: Cmd): (r: Parsed)
    requires pos <= |s|
    ensures pos <= r.pos <= |s|
    decreases |s| - pos
  {
    if Peek(s, pos) == '&' then BackLoop(s, GetToken(s, pos).pos, Back(cmd)) else Parsed(cmd, Skip(s, pos))
  }

  function ParseLine(s: string, pos: nat): (r: Option<Parsed>)
    requires pos <= |s|
    ensures r.Some? ==> pos <= r.value.pos <= |s|
    decreases |s| - pos, 4
  {
    var pipe := ParsePipe(s, pos);
    if pipe.None? then None
    else
      var back := BackLoop(s, pipe.value.pos, pipe.value.cmd);
      if Peek(s, back.pos) != ';' then Some(back)
      else
        var right := ParseLine(s, GetToken(s, back.pos).pos);
        if right.None? then None else Some(Parsed(List(back.cmd, right.value.cmd), right.value.pos))
  }

  function ParseCmd(s: string): Option<Cmd> {
    var line := ParseLine(s, 0);
    if line.None? || Skip(s, line.value.pos) != |s| then None else Some(line.value.cmd)
  }

  // ---- every string of a command is a word of the line ----

  /** Every string is a word of the line, and no command has too many. */
  ghost predicate CmdOk(s: string, c: Cmd) {
    match c
    case Exec(argv) => |argv| < MAXARGS && forall i :: 0 <= i < |argv| ==> SpanOk(s, argv[i])
    case Redir(cmd, file, _) => SpanOk(s, file) && CmdOk(s, cmd)
    case Pipe(l, r) => CmdOk(s, l) && CmdOk(s, r)
    case List(l, r) => CmdOk(s, l) && CmdOk(s, r)
    case Back(cmd) => CmdOk(s, cmd)
  }

  ghost predicate RedirsOk(s: string, rs: seq<Redirect>) { forall i :: 0 <= i < |rs| ==> SpanOk(s, rs[i].file) }

  lemma WordSpan(s: string, pos: nat)
    requires pos <= |s| && GetToken(s, pos).kind == 'a'
    ensures SpanOk(s, Span(GetToken(s, pos).q, GetToken(s, pos).eq))
  {
  }

  lemma {:induction false} WrapOk(s: string, c: Cmd, rs: seq<Redirect>)
    requires CmdOk(s, c) && RedirsOk(s, rs)
    ensures CmdOk(s, Wrap(c, rs))
    decreases |rs|
  {
    if rs != [] { WrapOk(s, c, rs[..|rs| - 1]); }
  }

  lemma {:induction false} ParseRedirsOk(s: string, pos: nat)
    requires pos <= |s| && ParseRedirs(s, pos).Some?
    ensures RedirsOk(s, ParseRedirs(s, pos).value.rs)
    decreases |s| - pos
  {
    hide GetToken, Skip, Peek, SpanOk;
    var tok := GetToken(s, pos);
    if Peek(s, pos) == '<' || Peek(s, pos) == '>' {
      PeekBefore(s, pos);
      WordSpan(s, tok.pos);
      ParseRedirsOk(s, GetToken(s, tok.pos).pos);
    }
  }

  /** A visible character means that the next token moves on. */
  lemma PeekBefore(s: string, pos: nat)
    requires pos <= |s| && Peek(s, pos) != '\0'
    ensures GetToken(s, pos).pos > pos
  {
  }

  lemma {:induction false} ExecLoopOk(s: string, pos: nat, argv: seq<Span>, rs: seq<Redirect>)
    requires pos <= |s| && ExecLoop(s, pos, argv, rs).Some? && CmdOk(s, Exec(argv)) && RedirsOk(s, rs)
    ensures CmdOk(s, Exec(ExecLoop(s, pos, argv, rs).value.argv)) && RedirsOk(s, ExecLoop(s, pos, argv, rs).value.rs)
    decreases |s| - pos
  {
    hide GetToken, Skip, Peek, SpanOk, ParseRedirs;
    var tok := GetToken(s, pos);
    if !EndsExec(Peek(s, pos)) && tok.kind != '\0' {
      WordSpan(s, pos);
      WordMoves(s, pos);
      ParseRedirsOk(s, tok.pos);
      var more := ParseRedirs(s, tok.pos).value;
      ExecLoopOk(s, more.pos, argv + [Span(tok.q, tok.eq)], rs + more.rs);
    }
  }

  lemma WordMoves(s: string, pos: nat)
    requires pos <= |s| && GetToken(s, pos).kind != '\0'
    ensures GetToken(s, pos).pos > pos
  {
  }

  lemma {:induction false} BackLoopOk(s: string, pos: nat, cmd: Cmd)
    requires pos <= |s| && CmdOk(s, cmd)
    ensures CmdOk(s, BackLoop(s, pos, cmd).cmd)
    decreases |s| - pos
  {
    hide GetToken, Skip, Peek;
    if Peek(s, pos) == '&' {
      PeekBefore(s, pos);
      BackLoopOk(s, GetToken(s, pos).pos, Back(cmd));
    }
  }

  lemma {:induction false} ParseExecOk(s: string, pos: nat)
    requires pos <= |s| && ParseExec(s, pos).Some?
    ensures CmdOk(s, ParseExec(s, pos).value.cmd)
    decreases |s| - pos, 2
  {
    hide GetToken, Skip, Peek, SpanOk, ParseRedirs, ExecLoop, ParseLine, Wrap;
    if Peek(s, pos) == '(' {
      PeekBefore(s, pos);
      ParseLineOk(s, GetToken(s, pos).pos);
      var line := ParseLine(s, GetToken(s, pos).pos).value;
      ParseRedirsOk(s, GetToken(s, line.pos).pos);
      WrapOk(s, line.cmd, ParseRedirs(s, GetToken(s, line.pos).pos).value.rs);
    } else {
      ParseRedirsOk(s, pos);
      var first := ParseRedirs(s, pos).value;
      ExecLoopOk(s, first.pos, [], first.rs);
      var args := ExecLoop(s, first.pos, [], first.rs).value;
      WrapOk(s, Exec(args.argv), args.rs);
    }
  }

  lemma {:induction false} ParsePipeOk(s: string, pos: nat)
    requires pos <= |s| && ParsePipe(s, pos).Some?
    ensures CmdOk(s, ParsePipe(s, pos).value.cmd)
    decreases |s| - pos, 3
  {
    hide GetToken, Skip, Peek, ParseExec;
    ParseExecOk(s, pos);
    var left := ParseExec(s, pos).value;
    if Peek(s, left.pos) == '|' {
      PeekBefore(s, left.pos);
      ParsePipeOk(s, GetToken(s, left.pos).pos);
    }
  }

  lemma {:induction false} ParseLineOk(s: string, pos: nat)
    requires pos <= |s| && ParseLine(s, pos).Some?
    ensures CmdOk(s, ParseLine(s, pos).value.cmd)
    decreases |s| - pos, 4
  {
    hide GetToken, Skip, Peek, ParsePipe, BackLoop;
    ParsePipeOk(s, pos);
    var pipe := ParsePipe(s, pos).value;
    BackLoopOk(s, pipe.pos, pipe.cmd);
    var back := BackLoop(s, pipe.pos, pipe.cmd);
    if Peek(s, back.pos) == ';' {
      PeekBefore(s, back.pos);
      ParseLineOk(s, GetToken(s, back.pos).pos);
    }
  }

  // ---- nulterminate ----

  /** Where nulterminate writes a zero. */
  ghost predicate Ends(c: Cmd, i: nat) {
    match c
    case Exec(argv) => exists k :: 0 <= k < |argv| && argv[k].eq == i
    case Redir(cmd, file, _) => file.eq == i || Ends(cmd, i)
    case Pipe(l, r) => Ends(l, i) || Ends(r, i)
    case List(l, r) => Ends(l, i) || Ends(r, i)
    case Back(cmd) => Ends(cmd, i)
  }

  /** The string sp is one of the command's. */
  ghost predicate Mentions(c: Cmd, sp: Span) {
    match c
    case Exec(argv) => sp in argv
    case Redir(cmd, file, _) => file == sp || Mentions(cmd, sp)
    case Pipe(l, r) => Mentions(l, sp) || Mentions(r, sp)
    case List(l, r) => Mentions(l, sp) || Mentions(r, sp)
    case Back(cmd) => Mentions(cmd, sp)
  }

  /** Every string of the command fits in a buffer of n characters. */
  ghost predicate Fits(c: Cmd, n: nat) {
    match c
    case Exec(argv) => forall i :: 0 <= i < |argv| ==> argv[i].eq < n
    case Redir(cmd, file, _) => file.eq < n && Fits(cmd, n)
    case Pipe(l, r) => Fits(l, n) && Fits(r, n)
    case List(l, r) => Fits(l, n) && Fits(r, n)
    case Back(cmd) => Fits(cmd, n)
  }

  /** Writes a zero at the end of every string of the command, and nowhere else. */
  method Nulterminate(buf: array<char>, cmd: Cmd)
    requires Fits(cmd, buf.Length)
    modifies buf
    ensures forall i :: 0 <= i < buf.Length ==> buf[i] == if Ends(cmd, i) then '\0' else old(buf[i])
    decreases cmd
  {
    match cmd {
      case Exec(argv) =>
        var k := 0;
        while k < |argv|
          invariant 0 <= k <= |argv|
          invariant forall i: nat :: i < buf.Length ==>
            buf[i] == if exists l :: 0 <= l < k && argv[l].eq == i then '\0' else old(buf[i])
        {
          buf[argv[k].eq] := '\0';
          k := k + 1;
        }
      case Redir(sub, file, _) =>
        Nulterminate(buf, sub);
        buf[file.eq] := '\0';
      case Pipe(l, r) =>
        Nulterminate(buf, l);
        Nulterminate(buf, r);
      case List(l, r) =>
        Nulterminate(buf, l);
        Nulterminate(buf, r);
      case Back(sub) =>
        Nulterminate(buf, sub);
    }
  }

  /** Reading from q finds w: its characters, none of them zero, and then a zero. */
  ghost predicate ReadsAs(buf: string, q: nat, w: string) {
    q + |w| < |buf| && buf[q..q + |w|] == w && buf[q + |w|] == '\0' && '\0' !in w
  }

  lemma {:induction false} MentionedOk(s: string, c: Cmd, sp: Span)
    requires CmdOk(s, c) && Mentions(c, sp)
    ensures SpanOk(s, sp) && Ends(c, sp.eq)
    decreases c
  {
    match c
    case Exec(argv) =>
      var i :| 0 <= i < |argv| && argv[i] == sp;
    case Redir(cmd, file, _) => if Mentions(cmd, sp) { MentionedOk(s, cmd, sp); }
    case Pipe(l, r) => if Mentions(l, sp) { MentionedOk(s, l, sp); } else { MentionedOk(s, r, sp); }
    case List(l, r) => if Mentions(l, sp) { MentionedOk(s, l, sp); } else { MentionedOk(s, r, sp); }
    case Back(cmd) => MentionedOk(s, cmd, sp);
  }

  /** No zero is written inside a word. */
  lemma {:induction false} EndsOutside(s: string, c: Cmd, i: nat)
    requires CmdOk(s, c) && Ends(c, i)
    ensures i <= |s| && (i < |s| ==> IsSpace(s[i]) || IsSymbol(s[i]))
    decreases c
  {
    match c
    case Exec(argv) =>
      var k :| 0 <= k < |argv| && argv[k].eq == i;
      assert SpanOk(s, argv[k]);
    case Redir(cmd, file, _) => if Ends(cmd, i) { EndsOutside(s, cmd, i); }
    case Pipe(l, r) => if Ends(l, i) { EndsOutside(s, l, i); } else { EndsOutside(s, r, i); }
    case List(l, r) => if Ends(l, i) { EndsOutside(s, l, i); } else { EndsOutside(s, r, i); }
    case Back(cmd) => EndsOutside(s, cmd, i);
  }

  /** After parsecmd, every string of the command reads as exactly its word. */
  lemma StringsRead(s: string, c: Cmd, buf: string, sp: Span)
    requires '\0' !in s && ParseCmd(s) == Some(c) && Mentions(c, sp)
    requires |buf| == |s| + 1 && forall i: nat :: i <= |s| ==> buf[i] == if Ends(c, i) || i == |s| then '\0' else s[i]
    ensures sp.q <= sp.eq <= |s| && ReadsAs(buf, sp.q, s[sp.q..sp.eq])
  {
    ParseLineOk(s, 0);
    MentionedOk(s, c, sp);
    var w := s[sp.q..sp.eq];
    forall i: nat | sp.q <= i < sp.eq ensures buf[i] == s[i] {
      if Ends(c, i) { EndsOutside(s, c, i); }
    }
  }
}
