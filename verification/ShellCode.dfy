/** The parser of sh.c as it runs: loops that advance *ps, here pos, along the line. */
module ShellCode {
  import opened Common
  import opened Shell

  class Parser {
    const s: string
    var pos: nat

    constructor (s: string)
      ensures this.s == s && pos == 0
    {
      this.s, pos := s, 0;
    }

    method SkipSpace()
      requires pos <= |s|
      modifies this`pos
      ensures pos == Skip(s, old(pos))
    {
      while pos < |s| && IsSpace(s[pos])
        invariant pos <= |s| && Skip(s, pos) == Skip(s, old(pos))
      {
        pos := pos + 1;
      }
    }

    method SkipWord()
      requires pos <= |s|
      modifies this`pos
      ensures pos == WordEnd(s, old(pos))
    {
      while pos < |s| && !IsSpace(s[pos]) && !IsSymbol(s[pos])
        invariant pos <= |s| && WordEnd(s, pos) == WordEnd(s, old(pos))
      {
        pos := pos + 1;
      }
    }

    /** gettoken. */
    method NextToken() returns (t: Token)
      requires pos <= |s|
      modifies this`pos
      ensures t == GetToken(s, old(pos)) && pos == t.pos
    {
      SkipSpace();
      var q := pos;
      var kind := '\0';
      if pos < |s| {
        kind := s[pos];
        if kind == '|' || kind == '(' || kind == ')' || kind == ';' || kind == '&' || kind == '<' {
          pos := pos + 1;
        } else if kind == '>' {
          pos := pos + 1;
          if pos < |s| && s[pos] == '>' {
            kind := '+';
            pos := pos + 1;
          }
        } else {
          kind := 'a';
          SkipWord();
        }
      }
      var eq := pos;
      SkipSpace();
      t := Token(kind, q, eq, pos);
    }

    /** peek: skips white space and looks at the next character. */
    method LooksAt() returns (c: char)
      requires pos <= |s|
      modifies this`pos
      ensures c == Peek(s, old(pos)) && pos == Skip(s, old(pos)) && c == Peek(s, pos)
    {
      SkipSpace();
      SkipTwice(s, old(pos));
      c := if pos < |s| then s[pos] else '\0';
    }

    /** parseredirs: the redirections in the order in which they wrap the command. */
    method Redirections() returns (r: Option<seq<Redirect>>)
      requires pos <= |s|
      modifies this`pos
      ensures pos <= |s| && ParseRedirs(s, old(pos)) == if r.None? then None else Some(Redirs(r.value, pos))
      ensures r.Some? ==> Skip(s, pos) == pos
    {
      hide Peek, GetToken, Skip;
      var rs := [];
      var c := LooksAt();
      SkipBounds(s, old(pos));
      RedirsSettled(s, old(pos));
      PrefixedNone(ParseRedirs(s, pos));
      while c == '<' || c == '>'
        invariant pos <= |s| && c == Peek(s, pos) && Skip(s, pos) == pos
        invariant ParseRedirs(s, old(pos)) == Prefixed(rs, ParseRedirs(s, pos))
        decreases |s| - pos
      {
        PeekBefore(s, pos);
        var tok := NextToken();
        var f := NextToken();
        if f.kind != 'a' { return None; }
        var one := Redirect(Span(f.q, f.eq), if tok.kind == '<' then In else Out);
        PrefixedMore(rs, one, ParseRedirs(s, f.pos));
        rs := rs + [one];
        RedirsSettled(s, pos);
        SkipBounds(s, pos);
        c := LooksAt();
      }
      PrefixedDone(rs, pos);
      r := Some(rs);
    }

    /** parseexec. */
    method Simple() returns (r: Option<Cmd>)
      requires pos <= |s|
      modifies this`pos
      ensures pos <= |s| && Agrees(r, pos, ParseExec(s, old(pos)))
      ensures r.Some? ==> Skip(s, pos) == pos
      decreases |s| - pos, 2
    {
      hide Peek, GetToken, Skip, ParseRedirs, ParseLine, Wrap;
      PeekSettled(s, pos);
      ParseBlockSettled(s, pos);
      RedirsSettled(s, pos);
      var c := LooksAt();
      if c == '(' {
        r := Block();
        return;
      }
      var rs := Redirections();
      if rs.None? { return None; }
      var args := Words(rs.value);
      if args.None? { return None; }
      r := Some(Wrap(Exec(args.value.argv), args.value.rs));
    }

    /** parseexec's loop. */
    method Words(first: seq<Redirect>) returns (r: Option<Args>)
      requires pos <= |s|
      modifies this`pos
      ensures pos <= |s| && r == ExecLoop(s, old(pos), [], first) && (r.Some? ==> pos == r.value.pos)
      ensures r.Some? ==> Skip(s, pos) == pos
    {
      hide Peek, GetToken, Skip, ParseRedirs;
      var argv, rs := [], first;
      LoopSettled(s, pos, [], first);
      SkipBounds(s, pos);
      var c := LooksAt();
      while !EndsExec(c)
        invariant pos <= |s| && c == Peek(s, pos) && Skip(s, pos) == pos
        invariant ExecLoop(s, old(pos), [], first) == ExecLoop(s, pos, argv, rs)
        decreases |s| - pos
      {
        LoopStep(s, pos);
        var tok := NextToken();
        if tok.kind == '\0' { return Some(Args(argv, rs, pos)); }
        if tok.kind != 'a' { return None; }
        argv := argv + [Span(tok.q, tok.eq)];
        if |argv| >= MAXARGS { return None; }
        var more := Redirections();
        if more.None? { return None; }
        rs := rs + more.value;
        LoopSettled(s, pos, argv, rs);
        SkipBounds(s, pos);
        c := LooksAt();
      }
      LoopStep(s, pos);
      r := Some(Args(argv, rs, pos));
    }

    /** parseblock. */
    method Block() returns (r: Option<Cmd>)
      requires pos <= |s|
      modifies this`pos
      ensures pos <= |s| && Agrees(r, pos, ParseBlock(s, old(pos)))
      ensures r.Some? ==> Skip(s, pos) == pos
      decreases |s| - pos, 1
    {
      hide Peek, GetToken, Skip, ParseRedirs, ParseLine, Wrap;
      PeekSettled(s, pos);
      var c := LooksAt();
      if c != '(' { return None; }
      PeekBefore(s, pos);
      var tok := NextToken();
      var line := Line();
      if line.None? { return None; }
      PeekSettled(s, pos);
      c := LooksAt();
      if c != ')' { return None; }
      tok := NextToken();
      var rs := Redirections();
      if rs.None? { return None; }
      r := Some(Wrap(line.value, rs.value));
    }

    /** parsepipe. */
    method Pipeline() returns (r: Option<Cmd>)
      requires pos <= |s|
      modifies this`pos
      ensures pos <= |s| && Agrees(r, pos, ParsePipe(s, old(pos)))
      decreases |s| - pos, 3
    {
      hide Peek, GetToken, Skip, ParseExec;
      var left := Simple();
      if left.None? { return None; }
      PeekSettled(s, pos);
      var c := LooksAt();
      if c == '|' {
        PeekBefore(s, pos);
        var tok := NextToken();
        var right := Pipeline();
        if right.None? { return None; }
        return Some(Pipe(left.value, right.value));
      }
      r := left;
    }

    /** parseline. */
    method Line() returns (r: Option<Cmd>)
      requires pos <= |s|
      modifies this`pos
      ensures pos <= |s| && Agrees(r, pos, ParseLine(s, old(pos)))
      decreases |s| - pos, 4
    {
      hide Peek, GetToken, Skip, ParsePipe, BackLoop;
      var pipe := Pipeline();
      if pipe.None? { return None; }
      var cmd := Background(pipe.value);
      PeekSettled(s, pos);
      var c := LooksAt();
      if c == ';' {
        PeekBefore(s, pos);
        var tok := NextToken();
        var right := Line();
        if right.None? { return None; }
        return Some(List(cmd, right.value));
      }
      r := Some(cmd);
    }

    /** parseline's loop. */
    method Background(cmd: Cmd) returns (r: Cmd)
      requires pos <= |s|
      modifies this`pos
      ensures pos <= |s| && BackLoop(s, old(pos), cmd) == Parsed(r, pos) && Skip(s, pos) == pos
    {
      hide Peek, GetToken, Skip;
      r := cmd;
      PeekSettled(s, pos);
      var c := LooksAt();
      while c == '&'
        invariant pos <= |s| && c == Peek(s, pos) && Skip(s, pos) == pos
        invariant BackLoop(s, old(pos), cmd) == BackLoop(s, pos, r)
        decreases |s| - pos
      {
        PeekBefore(s, pos);
        var tok := NextToken();
        r := Back(r);
        PeekSettled(s, pos);
        c := LooksAt();
      }
    }

    /** parsecmd, up to nulterminate; leftovers are a panic. */
    method Command() returns (r: Option<Cmd>)
      requires pos == 0
      modifies this`pos
      ensures r == ParseCmd(s)
    {
      hide ParseLine;
      r := Line();
      if r.None? { return; }
      SkipSpace();
      if pos != |s| { r := None; }
    }
  }

  /** The method returned r and left *ps at pos, and the function says the same. */
  ghost predicate Agrees(r: Option<Cmd>, pos: nat, spec: Option<Parsed>) {
    spec == if r.None? then None else Some(Parsed(r.value, pos))
  }

  /** The redirections rs and then those of r. */
  function Prefixed(rs: seq<Redirect>, r: Option<Redirs>): Option<Redirs> {
    if r.None? then None else Some(Redirs(rs + r.value.rs, r.value.pos))
  }

  lemma PrefixedNone(r: Option<Redirs>)
    ensures Prefixed([], r) == r
  {
    if r.Some? { assert [] + r.value.rs == r.value.rs; }
  }

  lemma PrefixedMore(rs: seq<Redirect>, x: Redirect, r: Option<Redirs>)
    ensures Prefixed(rs + [x], r)
         == Prefixed(rs, if r.None? then None else Some(Redirs([x] + r.value.rs, r.value.pos)))
  {
    if r.Some? { assert rs + [x] + r.value.rs == rs + ([x] + r.value.rs); }
  }

  lemma PrefixedDone(rs: seq<Redirect>, pos: nat)
    ensures Prefixed(rs, Some(Redirs([], pos))) == Some(Redirs(rs, pos))
  {
    assert rs + [] == rs;
  }

  lemma SkipBounds(s: string, pos: nat)
    requires pos <= |s|
    ensures pos <= Skip(s, pos) <= |s| && Skip(s, Skip(s, pos)) == Skip(s, pos)
  {
    SkipTwice(s, pos);
  }

  lemma RedirsSettled(s: string, pos: nat)
    requires pos <= |s|
    ensures ParseRedirs(s, Skip(s, pos)) == ParseRedirs(s, pos)
  {
    hide Peek, GetToken, Skip;
    PeekSettled(s, pos);
  }

  lemma ParseBlockSettled(s: string, pos: nat)
    requires pos <= |s|
    ensures ParseBlock(s, Skip(s, pos)) == ParseBlock(s, pos)
  {
    hide Peek, GetToken, Skip, ParseLine, ParseRedirs, Wrap;
    PeekSettled(s, pos);
  }

  lemma LoopSettled(s: string, pos: nat, argv: seq<Span>, rs: seq<Redirect>)
    requires pos <= |s|
    ensures ExecLoop(s, Skip(s, pos), argv, rs) == ExecLoop(s, pos, argv, rs)
  {
    hide Peek, GetToken, Skip, ParseRedirs;
    PeekSettled(s, pos);
  }

  lemma LoopStep(s: string, pos: nat)
    requires pos <= |s|
    ensures GetToken(s, pos).kind == '\0' ==> GetToken(s, pos).pos == Skip(s, pos)
    ensures GetToken(s, pos).kind != '\0' ==> GetToken(s, pos).pos > pos
  {
    if GetToken(s, pos).kind != '\0' { WordMoves(s, pos); }
  }
}
