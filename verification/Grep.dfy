/** The regular expression matcher of grep.c.  A text is the characters before its terminating zero. */
module Grep {
  /** c, or any character if c is '.'. */
  predicate Accepts(c: char, x: char) { c == '.' || c == x }

  datatype Item = One(c: char) | Star(c: char)

  /** The items of a pattern: a character with a star after it, or one without; a final '$' is none. */
  function Items(re: string): seq<Item> {
    if re == "" || re == "$" then []
    else if |re| >= 2 && re[1] == '*' then [Star(re[0])] + Items(re[2..])
    else [One(re[0])] + Items(re[1..])
  }

  /** The pattern ends in a '$' that is an anchor. */
  predicate ToEnd(re: string) {
    if re == "" then false
    else if |re| >= 2 && re[1] == '*' then ToEnd(re[2..])
    else re == "$" || ToEnd(re[1..])
  }

  ghost predicate InItem(i: Item, s: string) {
    match i
    case One(c) => |s| == 1 && Accepts(c, s[0])
    case Star(c) => forall k :: 0 <= k < |s| ==> Accepts(c, s[k])
  }

  /** s is a concatenation of strings, one in the language of each item. */
  ghost predicate InLanguage(items: seq<Item>, s: string)
    decreases |items|, 1
  {
    if items == [] then s == ""
    else exists k: nat :: k <= |s| && Splits(items, s, k)
  }

  ghost predicate Splits(items: seq<Item>, s: string, k: nat)
    requires items != [] && k <= |s|
    decreases |items|, 0
  {
    InItem(items[0], s[..k]) && InLanguage(items[1..], s[k..])
  }

  /** text[i..j] is in the pattern's language and reaches the end if it must. */
  ghost predicate MatchesAt(re: string, text: string, i: nat, j: nat) {
    i <= j <= |text| && InLanguage(Items(re), text[i..j]) && (ToEnd(re) ==> j == |text|)
  }

  /** The pattern matches some prefix of the text. */
  ghost predicate MatchesPrefix(re: string, text: string) {
    exists j: nat :: MatchesAt(re, text, 0, j)
  }

  lemma MatchesShift(re: string, text: string, i: nat, j: nat)
    requires i <= j <= |text|
    ensures MatchesAt(re, text, i, j) <==> MatchesAt(re, text[i..], 0, j - i)
  {
    assert text[i..][0..j - i] == text[i..j];
  }

  // ---- the cases of matchhere ----

  lemma EmptyMatches(text: string)
    ensures MatchesPrefix("", text)
  {
    assert MatchesAt("", text, 0, 0);
  }

  lemma EndMatches(text: string)
    ensures MatchesPrefix("$", text) <==> text == ""
  {
    if text == "" { assert MatchesAt("$", text, 0, 0); }
  }

  lemma OneMatches(re: string, text: string)
    requires re != "" && re != "$" && !(|re| >= 2 && re[1] == '*')
    ensures MatchesPrefix(re, text) <==> text != "" && Accepts(re[0], text[0]) && MatchesPrefix(re[1..], text[1..])
  {
    var items := Items(re);
    assert items[1..] == Items(re[1..]);
    if MatchesPrefix(re, text) {
      var j: nat :| MatchesAt(re, text, 0, j);
      assert InLanguage(items, text[0..j]);
      var k: nat :| k <= |text[0..j]| && Splits(items, text[0..j], k);
      assert k == 1 && text[0..j][1..] == text[1..][0..j - 1];
      assert MatchesAt(re[1..], text[1..], 0, j - 1);
    }
    if text != "" && Accepts(re[0], text[0]) && MatchesPrefix(re[1..], text[1..]) {
      var j: nat :| MatchesAt(re[1..], text[1..], 0, j);
      assert text[0..j + 1][1..] == text[1..][0..j] && text[0..j + 1][..1] == [text[0]];
      assert Splits(items, text[0..j + 1], 1);
      assert MatchesAt(re, text, 0, j + 1);
    }
  }

  /** c accepts the first i characters. */
  ghost predicate Run(c: char, text: string, i: nat) {
    i <= |text| && forall k :: 0 <= k < i ==> Accepts(c, text[k])
  }

  lemma StarMatches(re: string, text: string)
    requires |re| >= 2 && re[1] == '*'
    ensures MatchesPrefix(re, text) <==> exists i: nat :: Run(re[0], text, i) && MatchesPrefix(re[2..], text[i..])
  {
    var items := Items(re);
    assert items[1..] == Items(re[2..]);
    if MatchesPrefix(re, text) {
      var j: nat :| MatchesAt(re, text, 0, j);
      assert InLanguage(items, text[0..j]);
      var k: nat :| k <= |text[0..j]| && Splits(items, text[0..j], k);
      assert text[0..j][k..] == text[k..][0..j - k];
      forall l | 0 <= l < k ensures Accepts(re[0], text[l]) { assert text[0..j][..k][l] == text[l]; }
      assert MatchesAt(re[2..], text[k..], 0, j - k);
      assert Run(re[0], text, k);
    }
    if i: nat :| Run(re[0], text, i) && MatchesPrefix(re[2..], text[i..]) {
      var j: nat :| MatchesAt(re[2..], text[i..], 0, j);
      assert text[0..i + j][i..] == text[i..][0..j];
      assert Splits(items, text[0..i + j], i);
      assert MatchesAt(re, text, 0, i + j);
    }
  }

  // ---- the code ----

  /** Does the pattern match at the start of the text? */
  method MatchHere(re: string, text: string) returns (found: bool)
    ensures found <==> MatchesPrefix(re, text)
    decreases |re|, 0
  {
    if re == "" {
      EmptyMatches(text);
      return true;
    }
    if |re| >= 2 && re[1] == '*' {
      StarMatches(re, text);
      found := MatchStar(re[0], re[2..], text);
      return;
    }
    if re == "$" {
      EndMatches(text);
      return text == "";
    }
    OneMatches(re, text);
    if text != "" && (re[0] == '.' || re[0] == text[0]) {
      found := MatchHere(re[1..], text[1..]);
      return;
    }
    found := false;
  }

  /** Does c*re match at the start of the text? */
  method MatchStar(c: char, re: string, text: string) returns (found: bool)
    ensures found <==> exists i: nat :: Run(c, text, i) && MatchesPrefix(re, text[i..])
    decreases |re|, 1
  {
    var n := 0;
    while true
      invariant Run(c, text, n)
      invariant forall i: nat :: i < n ==> !MatchesPrefix(re, text[i..])
      decreases |text| - n
    {
      found := MatchHere(re, text[n..]);
      if found { return; }
      if n == |text| || !(text[n] == c || c == '.') { return; }
      n := n + 1;
    }
  }

  /** match: a substring is in the language; a prefix, if the pattern starts with '^'; a suffix, if it ends with '$'. */
  ghost predicate Matches(re: string, text: string) {
    if re != "" && re[0] == '^' then exists j: nat :: MatchesAt(re[1..], text, 0, j)
    else exists i: nat, j: nat :: MatchesAt(re, text, i, j)
  }

  method Match(re: string, text: string) returns (found: bool)
    ensures found <==> Matches(re, text)
  {
    if re != "" && re[0] == '^' {
      found := MatchHere(re[1..], text);
      return;
    }
    var n := 0;
    while true
      invariant n <= |text|
      invariant forall i: nat, j: nat :: i < n ==> !MatchesAt(re, text, i, j)
      decreases |text| - n
    {
      found := MatchHere(re, text[n..]);
      if found {
        ghost var j: nat :| MatchesAt(re, text[n..], 0, j);
        MatchesShift(re, text, n, n + j);
        return;
      }
      forall j: nat ensures !MatchesAt(re, text, n, j) {
        if n <= j <= |text| { MatchesShift(re, text, n, j); }
      }
      if n == |text| {
        assert forall i: nat, j: nat :: MatchesAt(re, text, i, j) ==> i <= n;
        return;
      }
      n := n + 1;
    }
  }

  // ---- what patterns without a star say ----

  /** No star after a character and no '$' at the end. */
  predicate Fixed(re: string) {
    && (forall k :: 1 <= k < |re| ==> re[k] != '*') && (re != "" ==> re[|re| - 1] != '$')
  }

  /** The text starts with the pattern, where a '.' stands for any character. */
  predicate Fits(re: string, text: string) {
    |re| <= |text| && forall k :: 0 <= k < |re| ==> re[k] == '.' || re[k] == text[k]
  }

  lemma FitsMore(re: string, text: string)
    requires re != ""
    ensures Fits(re, text) <==> text != "" && (re[0] == '.' || re[0] == text[0]) && Fits(re[1..], text[1..])
  {
    if text != "" && (re[0] == '.' || re[0] == text[0]) && Fits(re[1..], text[1..]) {
      forall k | 0 <= k < |re| ensures re[k] == '.' || re[k] == text[k] {
        if k > 0 { assert re[k] == re[1..][k - 1] && text[k] == text[1..][k - 1]; }
      }
    }
  }

  lemma {:induction false} FixedPrefix(re: string, text: string)
    requires Fixed(re)
    ensures MatchesPrefix(re, text) <==> Fits(re, text)
    ensures MatchesPrefix(re + "$", text) <==> |re| == |text| && Fits(re, text)
    decreases |re|
  {
    if re == "" {
      assert re + "$" == "$";
      EmptyMatches(text);
      EndMatches(text);
    } else {
      FitsMore(re, text);
      OneMatches(re, text);
      OneMatches(re + "$", text);
      assert (re + "$")[1..] == re[1..] + "$";
      if text != "" { FixedPrefix(re[1..], text[1..]); }
    }
  }

  /** Some part of the text is the pattern. */
  lemma FixedMatches(re: string, text: string)
    requires Fixed(re) && (re != "" ==> re[0] != '^')
    ensures Matches(re, text) <==> exists i: nat :: i <= |text| && Fits(re, text[i..])
  {
    forall i: nat | i <= |text| ensures (exists j: nat :: MatchesAt(re, text, i, j)) <==> Fits(re, text[i..]) {
      Shifted(re, text, i);
      FixedPrefix(re, text[i..]);
    }
    if i: nat, j: nat :| MatchesAt(re, text, i, j) { assert Fits(re, text[i..]); }
    if i: nat :| i <= |text| && Fits(re, text[i..]) {
      var j: nat :| MatchesAt(re, text, i, j);
      assert Matches(re, text);
    }
  }

  lemma Shifted(re: string, text: string, i: nat)
    requires i <= |text|
    ensures (exists j: nat :: MatchesAt(re, text, i, j)) <==> MatchesPrefix(re, text[i..])
  {
    if j: nat :| MatchesAt(re, text, i, j) { MatchesShift(re, text, i, j); }
    if j: nat :| MatchesAt(re, text[i..], 0, j) { MatchesShift(re, text, i, i + j); }
  }

  /** With '^' the start of the text is the pattern, with '$' its end, with both the whole text. */
  lemma AnchoredMatches(re: string, text: string)
    requires Fixed(re)
    ensures Matches("^" + re, text) <==> Fits(re, text)
    ensures Matches("^" + re + "$", text) <==> |re| == |text| && Fits(re, text)
    ensures re != "" && re[0] != '^' ==>
      (Matches(re + "$", text) <==> |re| <= |text| && Fits(re, text[|text| - |re|..]))
  {
    FixedPrefix(re, text);
    assert ("^" + re)[1..] == re && ("^" + re + "$")[1..] == re + "$";
    if re != "" && re[0] != '^' {
      if i: nat, j: nat :| MatchesAt(re + "$", text, i, j) {
        Shifted(re + "$", text, i);
        FixedPrefix(re, text[i..]);
      }
      if |re| <= |text| && Fits(re, text[|text| - |re|..]) {
        Shifted(re + "$", text, |text| - |re|);
        FixedPrefix(re, text[|text| - |re|..]);
        var j: nat :| MatchesAt(re + "$", text, |text| - |re|, j);
        assert Matches(re + "$", text);
      }
    }
  }

  /** The whole text is one character repeated, or anything if that is '.'. */
  lemma StarOnly(c: char, text: string)
    ensures Matches(['^', c, '*', '$'], text) <==> c == '.' || forall k :: 0 <= k < |text| ==> text[k] == c
  {
    var re := [c, '*', '$'];
    assert ['^', c, '*', '$'][1..] == re && re[2..] == "$";
    StarMatches(re, text);
    forall i: nat | i <= |text| ensures MatchesPrefix("$", text[i..]) <==> i == |text| { EndMatches(text[i..]); }
    if c == '.' || forall k :: 0 <= k < |text| ==> text[k] == c { assert Run(c, text, |text|); }
  }
}
