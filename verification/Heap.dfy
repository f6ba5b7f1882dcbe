/**
 * The free list of umalloc.c, as values.  Memory is the headers by byte address; a block of size n is 8n
 * bytes, its header included.  The list is given in address order, from base on.
 */
module Heap {
  import opened Common

  const UNIT := 8                          // sizeof(Header)

  datatype Header = Header(ptr: nat, size: nat)

  type Memory = map<nat, Header>

  function Size(mem: Memory, a: nat): nat { if a in mem then mem[a].size else 0 }

  function Ptr(mem: Memory, a: nat): nat { if a in mem then mem[a].ptr else 0 }

  /** Where the block at a ends. */
  function End(mem: Memory, a: nat): nat { a + UNIT * Size(mem, a) }

  /** The list element after i, round the circle. */
  function After(list: seq<nat>, i: nat): nat
    requires i < |list|
  {
    if i + 1 < |list| then list[i + 1] else list[0]
  }

  /** Element i is allocated memory and points to the next one; only base has size 0. */
  ghost predicate LinkOk(mem: Memory, list: seq<nat>, i: nat)
    requires i < |list|
  {
    list[i] in mem && mem[list[i]].ptr == After(list, i) && (mem[list[i]].size == 0 <==> i == 0)
  }

  /** Element i ends before element j starts; they do not touch. */
  ghost predicate OrderOk(mem: Memory, list: seq<nat>, i: nat, j: nat)
    requires i < j < |list|
  {
    End(mem, list[i]) < list[j]
  }

  /** Linked in a circle, in address order, and no block touches another. */
  ghost predicate Chain(mem: Memory, list: seq<nat>) {
    && |list| > 0
    && (forall i: nat {:trigger LinkOk(mem, list, i)} :: i < |list| ==> LinkOk(mem, list, i))
    && (forall i: nat, j: nat {:trigger OrderOk(mem, list, i, j)} :: i < j < |list| ==> OrderOk(mem, list, i, j))
  }

  /** b belongs between list[k] and the next. */
  ghost predicate Between(mem: Memory, list: seq<nat>, b: nat, k: nat) {
    && k < |list| && b in mem && Size(mem, b) > 0 && list[k] < b && End(mem, list[k]) <= b
    && (k + 1 < |list| ==> End(mem, b) <= list[k + 1])
  }

  // ---- free's four cases ----

  /** The first half of free's linking: b joins the block above it, or points to it. */
  function LinkUp(mem: Memory, b: nat, p: nat): Memory {
    var next := Ptr(mem, p);
    mem[b := if End(mem, b) == next then Header(Ptr(mem, next), Size(mem, b) + Size(mem, next))
             else Header(next, Size(mem, b))]
  }

  /** The second half: the block below joins b, or points to it. */
  function LinkDown(mem: Memory, b: nat, p: nat): Memory {
    mem[p := if End(mem, p) == b then Header(Ptr(mem, b), Size(mem, p) + Size(mem, b)) else Header(b, Size(mem, p))]
  }

  /** The rest of the list once b has joined, or not, the block above it. */
  function Above(mem: Memory, list: seq<nat>, b: nat, k: nat): seq<nat>
    requires k < |list|
  {
    if k + 1 < |list| && End(mem, b) == list[k + 1] then list[k + 2..] else list[k + 1..]
  }

  function Freed(mem: Memory, list: seq<nat>, b: nat, k: nat): seq<nat>
    requires k < |list|
  {
    if End(mem, list[k]) == b then list[..k + 1] + Above(mem, list, b, k)
    else list[..k + 1] + [b] + Above(mem, list, b, k)
  }

  /** Where element i of the new list was in the old one; b itself is new. */
  function Old(mem: Memory, list: seq<nat>, b: nat, k: nat, i: nat): nat
    requires k < |list|
  {
    var up := if k + 1 < |list| && End(mem, b) == list[k + 1] then 1 else 0;
    if i <= k then i else if End(mem, list[k]) == b then i + up else i - 1 + up
  }

  lemma FreedAt(mem: Memory, list: seq<nat>, b: nat, k: nat, i: nat)
    requires k < |list| && i < |Freed(mem, list, b, k)|
    ensures var l := Freed(mem, list, b, k);
      if i == k + 1 && End(mem, list[k]) != b then l[i] == b
      else Old(mem, list, b, k, i) < |list| && l[i] == list[Old(mem, list, b, k, i)]
  {
  }

  lemma NotListed(mem: Memory, list: seq<nat>, b: nat, k: nat, i: nat)
    requires Chain(mem, list) && Between(mem, list, b, k) && i < |list|
    ensures if i <= k then End(mem, list[i]) <= b && list[i] < b else End(mem, b) <= list[i]
  {
    if i < k { assert OrderOk(mem, list, i, k); }
    if i > k + 1 { assert OrderOk(mem, list, k + 1, i); }
  }

  function FreedMem(mem: Memory, list: seq<nat>, b: nat, k: nat): Memory
    requires k < |list|
  {
    LinkDown(LinkUp(mem, b, list[k]), b, list[k])
  }

  predicate JoinsUp(mem: Memory, list: seq<nat>, b: nat, k: nat)
    requires k < |list|
  {
    k + 1 < |list| && End(mem, b) == list[k + 1]
  }

  predicate JoinsDown(mem: Memory, list: seq<nat>, b: nat, k: nat)
    requires k < |list|
  {
    End(mem, list[k]) == b
  }

  /** What the new block covers: b, and the block above if they touch. */
  function UpSize(mem: Memory, list: seq<nat>, b: nat, k: nat): nat
    requires k < |list|
  {
    Size(mem, b) + if JoinsUp(mem, list, b, k) then Size(mem, list[k + 1]) else 0
  }

  function UpNext(mem: Memory, list: seq<nat>, b: nat, k: nat): nat
    requires k < |list|
  {
    if JoinsUp(mem, list, b, k) then After(list, k + 1) else After(list, k)
  }

  lemma UpHeader(mem: Memory, list: seq<nat>, b: nat, k: nat)
    requires Chain(mem, list) && Between(mem, list, b, k)
    ensures LinkUp(mem, b, list[k]) == mem[b := Header(UpNext(mem, list, b, k), UpSize(mem, list, b, k))]
    ensures b != list[k]
  {
    assert LinkOk(mem, list, k);
    NotListed(mem, list, b, k, 0);
    if k + 1 < |list| { assert LinkOk(mem, list, k + 1); }
  }

  lemma FreedHeaders(mem: Memory, list: seq<nat>, b: nat, k: nat)
    requires Chain(mem, list) && Between(mem, list, b, k)
    ensures var m, h := FreedMem(mem, list, b, k), Header(UpNext(mem, list, b, k), UpSize(mem, list, b, k));
      && m == mem[b := h][list[k] := if JoinsDown(mem, list, b, k) then Header(h.ptr, Size(mem, list[k]) + h.size)
                                     else Header(b, Size(mem, list[k]))]
      && b != list[k] && list[k] in mem
  {
    UpHeader(mem, list, b, k);
    assert LinkOk(mem, list, k);
  }

  /** What follows element i of the new list. */
  lemma FreedAfter(mem: Memory, list: seq<nat>, b: nat, k: nat, i: nat)
    requires k < |list| && i < |Freed(mem, list, b, k)|
    ensures var list', down := Freed(mem, list, b, k), JoinsDown(mem, list, b, k);
      After(list', i) == if i == k && !down then b
                         else if (i == k && down) || (i == k + 1 && !down) then UpNext(mem, list, b, k)
                         else if Old(mem, list, b, k, i) < |list| then After(list, Old(mem, list, b, k, i)) else 0
  {
    var list' := Freed(mem, list, b, k);
    FreedAt(mem, list, b, k, 0);
    FreedAt(mem, list, b, k, i);
    if i + 1 < |list'| { FreedAt(mem, list, b, k, i + 1); }
    hide End;
  }

  lemma FreedLink(mem: Memory, list: seq<nat>, b: nat, k: nat, i: nat)
    requires Chain(mem, list) && Between(mem, list, b, k) && i < |Freed(mem, list, b, k)|
    ensures LinkOk(FreedMem(mem, list, b, k), Freed(mem, list, b, k), i)
  {
    FreedHeaders(mem, list, b, k);
    FreedAt(mem, list, b, k, i);
    FreedAfter(mem, list, b, k, i);
    hide FreedMem, Freed;
    if !(i == k + 1 && !JoinsDown(mem, list, b, k)) {
      var o := Old(mem, list, b, k, i);
      assert LinkOk(mem, list, o) && LinkOk(mem, list, k);
      NotListed(mem, list, b, k, o);
      if o < k { assert OrderOk(mem, list, o, k); }
      if o > k { assert OrderOk(mem, list, k, o); }
    }
  }

  lemma FreedEnd(mem: Memory, list: seq<nat>, b: nat, k: nat, i: nat)
    requires Chain(mem, list) && Between(mem, list, b, k) && i < |Freed(mem, list, b, k)|
    ensures var list', m := Freed(mem, list, b, k), FreedMem(mem, list, b, k);
      if i == k + 1 && !JoinsDown(mem, list, b, k) then list'[i] == b && End(m, b) == b + UNIT * UpSize(mem, list, b, k)
      else if i == k && JoinsDown(mem, list, b, k) then
        list'[i] == list[k] && End(m, list'[i]) == b + UNIT * UpSize(mem, list, b, k)
      else End(m, list'[i]) == End(mem, list'[i]) && Old(mem, list, b, k, i) < |list|
           && list'[i] == list[Old(mem, list, b, k, i)]
  {
    FreedHeaders(mem, list, b, k);
    FreedAt(mem, list, b, k, i);
    if !(i == k + 1 && !JoinsDown(mem, list, b, k)) {
      var o := Old(mem, list, b, k, i);
      NotListed(mem, list, b, k, o);
      if o < k { assert OrderOk(mem, list, o, k); }
      if o > k { assert OrderOk(mem, list, k, o); }
    }
    hide FreedMem;
  }

  lemma FreedOrder(mem: Memory, list: seq<nat>, b: nat, k: nat, i: nat, j: nat)
    requires Chain(mem, list) && Between(mem, list, b, k) && i < j < |Freed(mem, list, b, k)|
    ensures OrderOk(FreedMem(mem, list, b, k), Freed(mem, list, b, k), i, j)
  {
    FreedEnd(mem, list, b, k, i);
    FreedEnd(mem, list, b, k, j);
    if JoinsUp(mem, list, b, k) { assert End(mem, list[k + 1]) == b + UNIT * UpSize(mem, list, b, k); }
    var oi, oj := Old(mem, list, b, k, i), Old(mem, list, b, k, j);
    if oi < |list| { NotListed(mem, list, b, k, oi); }
    if oj < |list| { NotListed(mem, list, b, k, oj); }
    if oi < oj < |list| { assert OrderOk(mem, list, oi, oj); }
    if oi < k { assert OrderOk(mem, list, oi, k); }
    if k + 1 < |list| { NotListed(mem, list, b, k, k + 1); }
    if k + 1 < oj < |list| { assert OrderOk(mem, list, k + 1, oj); }
    hide FreedMem, Freed;
  }

  /** Freeing keeps the list circular, ordered and fully coalesced. */
  lemma FreeChain(mem: Memory, list: seq<nat>, b: nat, k: nat)
    requires Chain(mem, list) && Between(mem, list, b, k)
    ensures Chain(FreedMem(mem, list, b, k), Freed(mem, list, b, k)) && Freed(mem, list, b, k)[0] == list[0]
  {
    var m, list' := FreedMem(mem, list, b, k), Freed(mem, list, b, k);
    forall i: nat | i < |list'| ensures LinkOk(m, list', i) { FreedLink(mem, list, b, k, i); }
    forall i: nat, j: nat | i < j < |list'| ensures OrderOk(m, list', i, j) { FreedOrder(mem, list, b, k, i, j); }
  }

  // ---- live blocks ----

  /** The blocks at a and b do not overlap. */
  predicate Apart(mem: Memory, a: nat, b: nat) { End(mem, a) <= b || End(mem, b) <= a }

  /** Block c is allocated, lies between base and top, and overlaps no free block. */
  ghost predicate LiveOk(mem: Memory, list: seq<nat>, top: nat, c: nat) {
    && c in mem && Size(mem, c) > 0 && |list| > 0 && list[0] < c && End(mem, c) <= top
    && forall i: nat {:trigger list[i]} :: i < |list| ==> Apart(mem, list[i], c)
  }

  ghost predicate LivesOk(mem: Memory, list: seq<nat>, live: seq<nat>, top: nat) {
    && (forall j: nat {:trigger live[j]} :: j < |live| ==> LiveOk(mem, list, top, live[j]))
    && (forall i: nat, j: nat {:trigger live[i], live[j]} :: i < j < |live| ==> Apart(mem, live[i], live[j]))
    && (forall i: nat {:trigger list[i]} :: i < |list| ==> list[i] < top && End(mem, list[i]) <= top)
  }

  /** The units of a sequence of blocks. */
  function Units(mem: Memory, blocks: seq<nat>): nat {
    if blocks == [] then 0 else Units(mem, blocks[..|blocks| - 1]) + Size(mem, blocks[|blocks| - 1])
  }

  lemma {:induction false} UnitsJoin(mem: Memory, a: seq<nat>, b: seq<nat>)
    ensures Units(mem, a + b) == Units(mem, a) + Units(mem, b)
    decreases |b|
  {
    if b == [] {
      assert a + b == a;
    } else {
      assert (a + b)[..|a + b| - 1] == a + b[..|b| - 1];
      UnitsJoin(mem, a, b[..|b| - 1]);
    }
  }

  lemma {:induction false} UnitsSame(mem: Memory, mem': Memory, a: seq<nat>)
    requires forall i: nat :: i < |a| ==> Size(mem', a[i]) == Size(mem, a[i])
    ensures Units(mem', a) == Units(mem, a)
    decreases |a|
  {
    if a != [] { UnitsSame(mem, mem', a[..|a| - 1]); }
  }

  lemma UnitsOne(mem: Memory, a: nat)
    ensures Units(mem, [a]) == Size(mem, a)
  {
    assert [a][..0] == [];
  }

  /** a + [x] + b has the units of its parts. */
  lemma UnitsParts(mem: Memory, a: seq<nat>, x: nat, b: seq<nat>)
    ensures Units(mem, a + [x] + b) == Units(mem, a) + Size(mem, x) + Units(mem, b)
  {
    UnitsJoin(mem, a + [x], b);
    UnitsJoin(mem, a, [x]);
    UnitsOne(mem, x);
  }

  // ---- what free does to the live blocks ----

  /** There is one place for a live block in the list. */
  lemma LiveBetween(mem: Memory, list: seq<nat>, top: nat, b: nat, k: nat)
    requires Chain(mem, list) && LiveOk(mem, list, top, b) && k < |list|
    requires list[k] < b && (k + 1 < |list| ==> b <= list[k + 1])
    ensures Between(mem, list, b, k)
  {
    assert LinkOk(mem, list, k);
    if k + 1 < |list| { assert LinkOk(mem, list, k + 1); }
    assert Apart(mem, list[k], b);
  }

  /** A block that overlaps neither b nor the free blocks overlaps no block of the new list. */
  lemma FreedApart(mem: Memory, list: seq<nat>, b: nat, k: nat, c: nat, top: nat, i: nat)
    requires Chain(mem, list) && Between(mem, list, b, k) && LiveOk(mem, list, top, c) && Apart(mem, b, c) && c != b
    requires i < |Freed(mem, list, b, k)|
    ensures var m := FreedMem(mem, list, b, k);
      Size(m, c) == Size(mem, c) && c in m && Apart(m, Freed(mem, list, b, k)[i], c)
  {
    FreedHeaders(mem, list, b, k);
    FreedEnd(mem, list, b, k, i);
    assert LinkOk(mem, list, k);
    hide FreedMem, Freed;
    assert Apart(mem, list[k], c);
    if k + 1 < |list| { assert Apart(mem, list[k + 1], c); }
    var o := Old(mem, list, b, k, i);
    if o < |list| { assert Apart(mem, list[o], c); }
  }

  lemma FreedTop(mem: Memory, list: seq<nat>, b: nat, k: nat, top: nat, i: nat)
    requires Chain(mem, list) && Between(mem, list, b, k) && i < |Freed(mem, list, b, k)| && End(mem, b) <= top
    requires forall i: nat {:trigger list[i]} :: i < |list| ==> list[i] < top && End(mem, list[i]) <= top
    ensures Freed(mem, list, b, k)[i] < top && End(FreedMem(mem, list, b, k), Freed(mem, list, b, k)[i]) <= top
  {
    FreedEnd(mem, list, b, k, i);
    if k + 1 < |list| { assert list[k + 1] < top; }
    hide FreedMem, Freed;
  }

  /** Freeing b leaves another live block as it was, and apart from the new list. */
  lemma FreedKeeps(mem: Memory, list: seq<nat>, top: nat, b: nat, k: nat, c: nat)
    requires Chain(mem, list) && Between(mem, list, b, k) && LiveOk(mem, list, top, b) && LiveOk(mem, list, top, c)
    requires Apart(mem, b, c) && c != b
    ensures LiveOk(FreedMem(mem, list, b, k), Freed(mem, list, b, k), top, c)
    ensures Size(FreedMem(mem, list, b, k), c) == Size(mem, c)
  {
    var m, list' := FreedMem(mem, list, b, k), Freed(mem, list, b, k);
    assert |list'| > 0 && list'[0] == list[0];
    hide Chain, Between, FreedMem, Freed;
    forall i: nat | i < |list'| ensures Apart(m, list'[i], c) { FreedApart(mem, list, b, k, c, top, i); }
    FreedApart(mem, list, b, k, c, top, 0);
  }

  /** Two different live blocks do not overlap, and so do not start at the same place. */
  lemma LivesApart(mem: Memory, list: seq<nat>, live: seq<nat>, top: nat, x: nat, y: nat)
    requires LivesOk(mem, list, live, top) && x < |live| && y < |live| && x != y
    ensures LiveOk(mem, list, top, live[x]) && LiveOk(mem, list, top, live[y])
    ensures Apart(mem, live[x], live[y]) && live[x] != live[y]
  {
    if x < y { assert Apart(mem, live[x], live[y]); } else { assert Apart(mem, live[y], live[x]); }
    assert LiveOk(mem, list, top, live[x]) && LiveOk(mem, list, top, live[y]);
  }

  /** Where element x of the live blocks without j was. */
  function Before(j: nat, x: nat): nat { if x < j then x else x + 1 }

  lemma FreeLives(mem: Memory, list: seq<nat>, live: seq<nat>, top: nat, j: nat, k: nat)
    requires Chain(mem, list) && LivesOk(mem, list, live, top) && j < |live| && Between(mem, list, live[j], k)
    ensures LivesOk(FreedMem(mem, list, live[j], k), Freed(mem, list, live[j], k), Without(live, j), top)
  {
    hide Chain, FreedMem, Freed, LiveOk;
    var b, live' := live[j], Without(live, j);
    var m, list' := FreedMem(mem, list, b, k), Freed(mem, list, b, k);
    forall x: nat | x < |live'| ensures LiveOk(m, list', top, live'[x]) && Size(m, live'[x]) == Size(mem, live'[x]) {
      assert live'[x] == live[Before(j, x)];
      LivesApart(mem, list, live, top, j, Before(j, x));
      FreedKeeps(mem, list, top, b, k, live'[x]);
    }
    forall x: nat, y: nat | x < y < |live'| ensures Apart(m, live'[x], live'[y]) {
      assert live'[x] == live[Before(j, x)] && live'[y] == live[Before(j, y)];
      LivesApart(mem, list, live, top, Before(j, x), Before(j, y));
    }
    forall i: nat | i < |list'| ensures list'[i] < top && End(m, list'[i]) <= top {
      LiveTop(mem, list, top, b);
      FreedTop(mem, list, b, k, top, i);
    }
  }

  lemma LiveTop(mem: Memory, list: seq<nat>, top: nat, c: nat)
    requires LiveOk(mem, list, top, c)
    ensures End(mem, c) <= top
  {
  }

  /** Freeing conserves the units. */
  lemma FreeUnits(mem: Memory, list: seq<nat>, live: seq<nat>, top: nat, j: nat, k: nat)
    requires Chain(mem, list) && LivesOk(mem, list, live, top) && j < |live| && Between(mem, list, live[j], k)
    ensures var m := FreedMem(mem, list, live[j], k);
      Units(m, Freed(mem, list, live[j], k)) + Units(m, Without(live, j)) == Units(mem, list) + Units(mem, live)
  {
    hide Chain, FreedMem, Freed, LiveOk, LivesOk, Size;
    var b := live[j];
    FreeListUnits(mem, list, b, k);
    var m := FreedMem(mem, list, b, k);
    forall x: nat | x < |live| && x != j ensures Size(m, live[x]) == Size(mem, live[x]) {
      LivesApart(mem, list, live, top, j, x);
      FreedKeeps(mem, list, top, b, k, live[x]);
    }
    UnitsSame(mem, m, live[..j]);
    UnitsSame(mem, m, live[j + 1..]);
    UnitsJoin(m, live[..j], live[j + 1..]);
    assert live == live[..j] + [b] + live[j + 1..];
    UnitsParts(mem, live[..j], b, live[j + 1..]);
  }

  lemma FreeListUnits(mem: Memory, list: seq<nat>, b: nat, k: nat)
    requires Chain(mem, list) && Between(mem, list, b, k)
    ensures Units(FreedMem(mem, list, b, k), Freed(mem, list, b, k)) == Units(mem, list) + Size(mem, b)
  {
    var m, p, left, right, rest := FreedMem(mem, list, b, k), list[k], list[..k], list[k + 1..], Above(mem, list, b, k);
    FreedHeaders(mem, list, b, k);
    forall i: nat | i < |list| && i != k ensures list[i] != b && list[i] != p {
      NotListed(mem, list, b, k, i);
      if i < k { assert OrderOk(mem, list, i, k); } else { assert OrderOk(mem, list, k, i); }
    }
    UnitsSame(mem, m, left);
    UnitsSame(mem, m, rest);
    hide FreedMem;
    assert list == left + [p] + right;
    UnitsParts(mem, left, p, right);
    if JoinsUp(mem, list, b, k) {
      assert right == [] + [list[k + 1]] + rest;
      UnitsParts(mem, [], list[k + 1], rest);
    }
    assert list[..k + 1] == left + [p];
    UnitsParts(m, left, p, rest);
    UnitsParts(m, left + [p], b, rest);
    UnitsJoin(m, left, [p]);
    UnitsOne(m, p);
  }

  // ---- what malloc does ----

  /** An exact fit is taken off the list. */
  function TakeMem(mem: Memory, list: seq<nat>, i: nat): Memory
    requires 0 < i < |list|
  {
    mem[list[i - 1] := Header(Ptr(mem, list[i]), Size(mem, list[i - 1]))]
  }

  lemma TakeChain(mem: Memory, list: seq<nat>, i: nat)
    requires Chain(mem, list) && 0 < i < |list|
    ensures Chain(TakeMem(mem, list, i), Without(list, i))
    ensures forall a :: Size(TakeMem(mem, list, i), a) == Size(mem, a)
  {
    var m, l := TakeMem(mem, list, i), Without(list, i);
    assert LinkOk(mem, list, i - 1) && LinkOk(mem, list, i);
    forall x: nat | x < |l| ensures LinkOk(m, l, x) {
      var x' := if x < i then x else x + 1;
      assert LinkOk(mem, list, x');
      assert (x' < i - 1 ==> OrderOk(mem, list, x', i - 1)) && (x' > i - 1 ==> OrderOk(mem, list, i - 1, x'));
    }
    forall x: nat, y: nat | x < y < |l| ensures OrderOk(m, l, x, y) {
      assert OrderOk(mem, list, if x < i then x else x + 1, if y < i then y else y + 1);
    }
  }

  lemma TakeLives(mem: Memory, list: seq<nat>, live: seq<nat>, top: nat, i: nat)
    requires Chain(mem, list) && LivesOk(mem, list, live, top) && 0 < i < |list|
    ensures LivesOk(TakeMem(mem, list, i), Without(list, i), live + [list[i]], top)
  {
    TakeChain(mem, list, i);
    var m, l, live' := TakeMem(mem, list, i), Without(list, i), live + [list[i]];
    assert LinkOk(mem, list, i) && OrderOk(mem, list, 0, i);
    forall j: nat | j < |live'| ensures LiveOk(m, l, top, live'[j]) {
      forall x: nat | x < |l| ensures Apart(m, l[x], live'[j]) {
        var x' := if x < i then x else x + 1;
        assert l[x] == list[x'];
        if j < |live| { assert LiveOk(mem, list, top, live[j]); }
        else if x' < i { assert OrderOk(mem, list, x', i); } else { assert OrderOk(mem, list, i, x'); }
      }
      if j < |live| { assert LiveOk(mem, list, top, live[j]); }
    }
    forall x: nat, y: nat | x < y < |live'| ensures Apart(m, live'[x], live'[y]) {
      assert LiveOk(mem, list, top, live[x]);
      if y < |live| { assert Apart(mem, live[x], live[y]); }
    }
    forall x: nat | x < |l| ensures l[x] < top && End(m, l[x]) <= top {
      assert l[x] == list[if x < i then x else x + 1];
    }
  }

  lemma TakeUnits(mem: Memory, list: seq<nat>, live: seq<nat>, i: nat)
    requires Chain(mem, list) && 0 < i < |list|
    ensures var m := TakeMem(mem, list, i);
      Units(m, Without(list, i)) + Units(m, live + [list[i]]) == Units(mem, list) + Units(mem, live)
  {
    TakeChain(mem, list, i);
    var m := TakeMem(mem, list, i);
    UnitsSame(mem, m, list);
    UnitsSame(mem, m, live);
    assert list == list[..i] + [list[i]] + list[i + 1..];
    UnitsParts(m, list[..i], list[i], list[i + 1..]);
    UnitsJoin(m, list[..i], list[i + 1..]);
    UnitsJoin(m, live, [list[i]]);
    UnitsOne(m, list[i]);
  }

  /** The upper n units of a larger block are cut off. */
  function Tail(mem: Memory, p: nat, n: nat): nat { p + UNIT * (if Size(mem, p) > n then Size(mem, p) - n else 0) }

  function SplitMem(mem: Memory, p: nat, n: nat): Memory
    requires Size(mem, p) > n
  {
    mem[p := Header(Ptr(mem, p), Size(mem, p) - n)][Tail(mem, p, n) := Header(Ptr(mem, Tail(mem, p, n)), n)]
  }

  lemma SplitSizes(mem: Memory, list: seq<nat>, i: nat, n: nat)
    requires Chain(mem, list) && 0 < i < |list| && Size(mem, list[i]) > n > 0
    ensures var m, tail := SplitMem(mem, list[i], n), Tail(mem, list[i], n);
      && End(m, list[i]) == tail && End(m, tail) == End(mem, list[i]) && tail !in list
      && (forall a :: a != list[i] && a != tail ==> Size(m, a) == Size(mem, a) && (a in mem <==> a in m))
      && (forall x: nat :: x < |list| && x != i ==> list[x] in m && m[list[x]] == mem[list[x]] && list[x] != list[i])
  {
    assert LinkOk(mem, list, i);
    forall x: nat | x < |list|
      ensures list[x] != Tail(mem, list[i], n) && list[x] in mem && (x != i ==> list[x] != list[i])
    {
      assert LinkOk(mem, list, x) && (x < i ==> OrderOk(mem, list, x, i)) && (x > i ==> OrderOk(mem, list, i, x));
    }
  }

  lemma SplitChain(mem: Memory, list: seq<nat>, i: nat, n: nat)
    requires Chain(mem, list) && 0 < i < |list| && Size(mem, list[i]) > n > 0
    ensures Chain(SplitMem(mem, list[i], n), list)
  {
    var m := SplitMem(mem, list[i], n);
    SplitSizes(mem, list, i, n);
    forall x: nat | x < |list| ensures LinkOk(m, list, x) { assert LinkOk(mem, list, x); }
    forall x: nat, y: nat | x < y < |list| ensures OrderOk(m, list, x, y) { assert OrderOk(mem, list, x, y); }
  }

  lemma SplitLives(mem: Memory, list: seq<nat>, live: seq<nat>, top: nat, i: nat, n: nat)
    requires Chain(mem, list) && LivesOk(mem, list, live, top) && 0 < i < |list| && Size(mem, list[i]) > n > 0
    ensures LivesOk(SplitMem(mem, list[i], n), list, live + [Tail(mem, list[i], n)], top)
    ensures forall j: nat :: j < |live| ==> Size(SplitMem(mem, list[i], n), live[j]) == Size(mem, live[j])
  {
    var m, tail := SplitMem(mem, list[i], n), Tail(mem, list[i], n);
    var live' := live + [tail];
    SplitSizes(mem, list, i, n);
    assert OrderOk(mem, list, 0, i);
    forall j: nat | j < |live|
      ensures live[j] != tail && live[j] != list[i] && live[j] in m
      ensures Apart(m, tail, live[j]) && LiveOk(m, list, top, live[j])
    {
      assert LiveOk(mem, list, top, live[j]) && Apart(mem, list[i], live[j]);
    }
    hide SplitMem, Tail;
    forall x: nat | x < |list| ensures Apart(m, list[x], tail) && list[x] < top && End(m, list[x]) <= top {
      assert list[x] < top && list[i] < top;
      if x < i { assert OrderOk(mem, list, x, i); } else if x > i { assert OrderOk(mem, list, i, x); }
    }
    assert LiveOk(m, list, top, tail);
    forall x: nat, y: nat | x < y < |live'| ensures Apart(m, live'[x], live'[y]) {
      if y < |live| { assert Apart(mem, live[x], live[y]); }
    }
  }

  lemma SplitUnits(mem: Memory, list: seq<nat>, live: seq<nat>, top: nat, i: nat, n: nat)
    requires Chain(mem, list) && LivesOk(mem, list, live, top) && 0 < i < |list| && Size(mem, list[i]) > n > 0
    ensures var m := SplitMem(mem, list[i], n);
      Units(m, list) + Units(m, live + [Tail(mem, list[i], n)]) == Units(mem, list) + Units(mem, live)
  {
    var m, tail := SplitMem(mem, list[i], n), Tail(mem, list[i], n);
    SplitSizes(mem, list, i, n);
    SplitLives(mem, list, live, top, i, n);
    assert list == list[..i] + [list[i]] + list[i + 1..];
    assert Size(m, list[i]) == Size(mem, list[i]) - n && Size(m, tail) == n;
    hide SplitMem, Tail;
    UnitsParts(m, list[..i], list[i], list[i + 1..]);
    UnitsParts(mem, list[..i], list[i], list[i + 1..]);
    UnitsSame(mem, m, list[..i]);
    UnitsSame(mem, m, list[i + 1..]);
    UnitsSame(mem, m, live);
    UnitsJoin(m, live, [tail]);
    UnitsOne(m, tail);
  }

  /** After freeing a block, the list has one at least as large. */
  lemma FreedBig(mem: Memory, list: seq<nat>, b: nat, k: nat) returns (i: nat)
    requires Chain(mem, list) && Between(mem, list, b, k)
    ensures i < |Freed(mem, list, b, k)| && Size(FreedMem(mem, list, b, k), Freed(mem, list, b, k)[i]) >= Size(mem, b)
  {
    i := if JoinsDown(mem, list, b, k) then k else k + 1;
    FreedHeaders(mem, list, b, k);
    FreedAt(mem, list, b, k, i);
  }

  /** New memory from above the top is apart from everything. */
  lemma GrowLives(mem: Memory, list: seq<nat>, live: seq<nat>, top: nat, p: nat, n: nat)
    requires Chain(mem, list) && LivesOk(mem, list, live, top) && p >= top && n > 0
    ensures var m := mem[p := Header(Ptr(mem, p), n)];
      && Chain(m, list) && LivesOk(m, list, live + [p], p + UNIT * n)
      && Units(m, list) + Units(m, live + [p]) == Units(mem, list) + Units(mem, live) + n
  {
    var m, live' := mem[p := Header(Ptr(mem, p), n)], live + [p];
    forall i: nat | i < |list| ensures list[i] != p && LinkOk(m, list, i) && list[i] < p && End(m, list[i]) <= p {
      assert LinkOk(mem, list, i) && list[i] < top;
    }
    forall i: nat, j: nat | i < j < |list| ensures OrderOk(m, list, i, j) { assert OrderOk(mem, list, i, j); }
    forall j: nat | j < |live| ensures live[j] != p && LiveOk(m, list, p + UNIT * n, live[j]) && Apart(m, live[j], p) {
      assert LiveOk(mem, list, top, live[j]);
      forall i: nat | i < |list| ensures Apart(m, list[i], live[j]) { assert Apart(mem, list[i], live[j]); }
    }
    assert LiveOk(m, list, p + UNIT * n, p);
    forall x: nat, y: nat | x < y < |live'| ensures Apart(m, live'[x], live'[y]) {
      if y < |live| { assert Apart(mem, live[x], live[y]); }
    }
    UnitsSame(mem, m, list);
    UnitsSame(mem, m, live);
    UnitsJoin(m, live, [p]);
    UnitsOne(m, p);
  }

  // ---- sizes ----

  /** malloc's unit count, in 32-bit arithmetic. */
  function UnitsFor(nbytes: nat): nat { (nbytes + UNIT - 1) % UINT_LIMIT / UNIT + 1 }

  /** The block is large enough exactly when the sum did not wrap. */
  lemma EnoughIff(nbytes: nat)
    requires nbytes < UINT_LIMIT
    ensures UNIT * (UnitsFor(nbytes) - 1) >= nbytes <==> nbytes <= UINT_LIMIT - UNIT
  {
  }

  /** The units that morecore asks for. */
  function CoreUnits(nu: nat): nat { if nu < 4096 then 4096 else nu }

  /** A 32-bit value read as an int. */
  function Signed(x: Uint): int { if x < 0x8000_0000 then x else x - UINT_LIMIT }

  /** The argument of sbrk: a 32-bit product, taken as an int. */
  function Request(nu: nat): int { Signed(UNIT * CoreUnits(nu) % UINT_LIMIT) }

  /** sbrk is asked for the whole block exactly when the block is smaller than 2^31 bytes. */
  lemma RequestIff(nu: nat)
    ensures Request(nu) == UNIT * CoreUnits(nu) <==> UNIT * CoreUnits(nu) < 0x8000_0000
  {
  }

  /**
   * What malloc asks sbrk for, by size: the block, up to 2^31 - 16 bytes; then nothing or a negative amount,
   * which gives memory back while the header is still written at the old end; and 4096 units for the last
   * seven sizes, for which the unit count wraps.
   */
  lemma RequestBySize(nbytes: nat)
    requires nbytes < UINT_LIMIT
    ensures UNIT * CoreUnits(UnitsFor(nbytes)) < 0x8000_0000
       <==> nbytes <= 0x8000_0000 - 2 * UNIT || nbytes > UINT_LIMIT - UNIT
    ensures 0x8000_0000 - 2 * UNIT < nbytes <= UINT_LIMIT - UNIT ==> Request(UnitsFor(nbytes)) <= 0
    ensures nbytes > UINT_LIMIT - UNIT ==> UnitsFor(nbytes) == 1
  {
  }
}
