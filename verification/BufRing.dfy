/** The doubly linked list of bio.c, as values: nodes are buffer numbers, and h is the list head. */
module BufRing {
  import opened Common

  /** Position i of the circle: the head, the elements in order, and the head again. */
  function At(order: seq<nat>, h: nat, i: nat): nat {
    if 0 < i <= |order| then order[i - 1] else h
  }

  /** The links between positions i and i + 1. */
  ghost predicate LinkOk(next: seq<nat>, prev: seq<nat>, order: seq<nat>, h: nat, i: nat) {
    && At(order, h, i) < |next| && At(order, h, i + 1) < |prev|
    && next[At(order, h, i)] == At(order, h, i + 1) && prev[At(order, h, i + 1)] == At(order, h, i)
  }

  /** Going round from h, next visits order and prev visits it backwards. */
  ghost predicate Ring(next: seq<nat>, prev: seq<nat>, order: seq<nat>, h: nat) {
    && |next| == |prev| == h + 1 && Distinct(order)
    && (forall i: nat {:trigger order[i]} :: i < |order| ==> order[i] < h)
    && (forall i: nat {:trigger LinkOk(next, prev, order, h, i)} :: i <= |order| ==> LinkOk(next, prev, order, h, i))
  }

  lemma AtDistinct(order: seq<nat>, h: nat, i: nat, j: nat)
    requires Distinct(order) && (forall k: nat {:trigger order[k]} :: k < |order| ==> order[k] < h) && i < j <= |order|
    ensures At(order, h, i) != At(order, h, j)
    ensures i > 0 ==> At(order, h, i) != h
    ensures At(order, h, j) != h
  {
    if i > 0 { assert order[i - 1] != order[j - 1]; }
  }

  lemma WithoutAt(order: seq<nat>, h: nat, j: nat, i: nat)
    requires j < |order|
    ensures At(Without(order, j), h, i) == At(order, h, if i <= j then i else i + 1)
  {
  }

  lemma UnlinkAt(next: seq<nat>, prev: seq<nat>, order: seq<nat>, h: nat, j: nat, next': seq<nat>, prev': seq<nat>,
                 i: nat)
    requires Ring(next, prev, order, h) && j < |order| && order[j] <= h && next[order[j]] <= h && prev[order[j]] <= h
    requires next' == next[prev[order[j]] := next[order[j]]] && prev' == prev[next[order[j]] := prev[order[j]]]
    requires i < |order|
    ensures LinkOk(next', prev', Without(order, j), h, i)
  {
    assert LinkOk(next, prev, order, h, j) && LinkOk(next, prev, order, h, j + 1);
    WithoutAt(order, h, j, i);
    WithoutAt(order, h, j, i + 1);
    hide Without;
    var x, y := if i <= j then i else i + 1, if i + 1 <= j then i + 1 else i + 2;
    if i != j {
      assert LinkOk(next, prev, order, h, x);
      if x < j { AtDistinct(order, h, x, j); } else { AtDistinct(order, h, j, x); }
      if y < j + 2 <= |order| { AtDistinct(order, h, y, j + 2); }
      if j + 2 < y <= |order| { AtDistinct(order, h, j + 2, y); }
      if j + 2 == |order| + 1 && y <= |order| { AtDistinct(order, h, 0, y); }
      if y == |order| + 1 && j + 2 <= |order| { AtDistinct(order, h, 0, j + 2); }
    }
  }

  /** The two neighbours of an element are joined, which takes it out. */
  lemma Unlink(next: seq<nat>, prev: seq<nat>, order: seq<nat>, h: nat, j: nat, next': seq<nat>, prev': seq<nat>)
    requires Ring(next, prev, order, h) && j < |order| && order[j] <= h && next[order[j]] <= h && prev[order[j]] <= h
    requires next' == next[prev[order[j]] := next[order[j]]] && prev' == prev[next[order[j]] := prev[order[j]]]
    ensures Ring(next', prev', Without(order, j), h)
  {
    var o := Without(order, j);
    forall i: nat | i <= |o| ensures LinkOk(next', prev', o, h, i) {
      UnlinkAt(next, prev, order, h, j, next', prev', i);
    }
    forall x: nat, y: nat | x < y < |o| ensures o[x] != o[y] {
      assert order[if x < j then x else x + 1] != order[if y < j then y else y + 1];
    }
  }

  /** An element is put between the head and what followed it. */
  lemma PushFront(next: seq<nat>, prev: seq<nat>, order: seq<nat>, h: nat, b: nat, next': seq<nat>, prev': seq<nat>)
    requires Ring(next, prev, order, h) && b < h && b !in order && next[h] <= h
    requires next' == next[b := next[h]][h := b] && prev' == prev[b := h][next[h] := b]
    ensures Ring(next', prev', [b] + order, h)
  {
    var o := [b] + order;
    assert LinkOk(next, prev, order, h, 0);
    forall i: nat | i <= |o| ensures LinkOk(next', prev', o, h, i) {
      if i >= 2 {
        assert At(o, h, i) == At(order, h, i - 1) && At(o, h, i + 1) == At(order, h, i);
        assert LinkOk(next, prev, order, h, i - 1);
        if i <= |order| { AtDistinct(order, h, 1, i); }
        AtDistinct(order, h, 0, i - 1);
      }
    }
  }
}
