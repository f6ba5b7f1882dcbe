/** The buffer cache of bio.c.  latest is, for every block, what was last passed to log_write or bwrite. */
module Bio {
  import opened Common
  import opened Blocks
  import opened BufRing

  datatype Key = Key(dev: nat, blockno: nat)

  datatype Buf = Buf(key: Key, valid: bool, dirty: bool, refcnt: nat, locked: bool, data: Block)

  type Disk = map<Key, Block>

  // ---- what holds of the buffers ----

  /** No two buffers hold the same block of a real device. */
  ghost predicate Unique(bufs: seq<Buf>) {
    forall i: nat, j: nat {:trigger bufs[i], bufs[j]} :: i < j < |bufs| && bufs[i].key == bufs[j].key ==>
      bufs[i].key.dev == 0
  }

  ghost predicate BufOk(b: Buf, disk: Disk, latest: Disk) {
    && (b.locked ==> b.refcnt > 0) && (b.dirty ==> b.valid)
    && (b.valid ==> b.key.dev != 0) && (b.refcnt > 0 ==> b.key.dev != 0)
    && (b.key.dev != 0 ==> b.key in disk && b.key in latest)
    && (b.key.dev != 0 && !b.dirty ==> disk[b.key] == latest[b.key])
    && (b.valid && !b.locked ==> b.data == latest[b.key])
  }

  ghost predicate Cached(bufs: seq<Buf>, k: Key) {
    exists i: nat :: i < |bufs| && bufs[i].key == k
  }

  /** The cache and the disk together hold the latest contents of every block. */
  ghost predicate Agrees(bufs: seq<Buf>, disk: Disk, latest: Disk) {
    && disk.Keys == latest.Keys && (forall k :: k in disk ==> k.dev != 0)
    && (forall i: nat {:trigger bufs[i]} :: i < |bufs| ==> BufOk(bufs[i], disk, latest))
    && (forall k {:trigger Cached(bufs, k)} :: k in disk && !Cached(bufs, k) ==> disk[k] == latest[k])
  }

  /** A buffer changes but keeps its block; perhaps the block's contents change with it. */
  lemma ChangeBuf(bufs: seq<Buf>, disk: Disk, latest: Disk, i: nat, b: Buf, disk': Disk, latest': Disk)
    requires Unique(bufs) && Agrees(bufs, disk, latest) && i < |bufs| && b.key == bufs[i].key && b.key.dev != 0
    requires b.key in disk' && b.key in latest'
    requires disk' == disk[b.key := disk'[b.key]] && latest' == latest[b.key := latest'[b.key]]
    requires BufOk(b, disk', latest')
    ensures Unique(bufs[i := b]) && Agrees(bufs[i := b], disk', latest')
  {
    var bufs' := bufs[i := b];
    forall j: nat | j < |bufs| && j != i ensures BufOk(bufs'[j], disk', latest') {
      assert BufOk(bufs[j], disk, latest) && bufs[i].key != bufs[j].key;
    }
    forall k ensures Cached(bufs, k) ==> Cached(bufs', k) {
      if j: nat :| j < |bufs| && bufs[j].key == k { assert bufs'[j].key == k; }
    }
    assert bufs'[i].key == b.key && Cached(bufs', b.key);
    forall x: nat, y: nat | x < y < |bufs'| && bufs'[x].key == bufs'[y].key ensures bufs'[x].key.dev == 0 {
      assert bufs[x].key == bufs[y].key;
    }
  }

  /** A clean unreferenced buffer is given to an uncached block. */
  lemma Recycle(bufs: seq<Buf>, disk: Disk, latest: Disk, i: nat, k: Key, b: Buf)
    requires Unique(bufs) && Agrees(bufs, disk, latest) && i < |bufs| && k in disk && k.dev != 0 && !Cached(bufs, k)
    requires bufs[i].refcnt == 0 && !bufs[i].dirty && b == Buf(k, false, false, 1, false, bufs[i].data)
    ensures Unique(bufs[i := b]) && Agrees(bufs[i := b], disk, latest)
  {
    var bufs' := bufs[i := b];
    assert BufOk(bufs[i], disk, latest);
    forall j: nat | j < |bufs| ensures BufOk(bufs'[j], disk, latest) { assert BufOk(bufs[j], disk, latest); }
    assert forall x: nat :: x < |bufs| ==> bufs[x].key != k;
    forall c ensures Cached(bufs, c) ==> Cached(bufs', c) || c == bufs[i].key {
      if j: nat :| j < |bufs| && bufs[j].key == c { assert j != i ==> bufs'[j].key == c; }
    }
    assert bufs'[i].key == k && Cached(bufs', k);
  }

  /** A buffer may be recycled. */
  predicate Idle(b: Buf) { b.refcnt == 0 && !b.dirty }

  class Cache {
    const n: nat                         // NBUF; also the number of the list head
    var bufs: seq<Buf>
    var next: seq<nat>
    var prev: seq<nat>
    var disk: Disk
    ghost var order: seq<nat>            // most recently used first
    ghost var latest: Disk

    ghost predicate Valid()
      reads this
    {
      && 0 < n == |bufs| == |order| && Ring(next, prev, order, n) && (forall b: nat :: b < n ==> b in order)
      && Unique(bufs) && Agrees(bufs, disk, latest)
    }

    /** binit: every buffer is linked in at the front, the last one first in the list. */
    constructor (n: nat, disk: Disk, data: Block)
      requires n > 0 && forall k :: k in disk ==> k.dev != 0
      ensures Valid() && this.n == n && this.disk == disk == latest
      ensures forall i: nat :: i < n ==> order[i] == n - 1 - i
    {
      this.n, this.disk, latest := n, disk, disk;
      bufs := seq(n, i => Buf(Key(0, 0), false, false, 0, false, data));
      next, prev, order := seq(n + 1, i => n), seq(n + 1, i => n), [];
      new;
      var b := 0;
      while b < n
        invariant 0 <= b <= n == this.n && Ring(next, prev, order, n) && |order| == b && next[n] <= n
        invariant forall i: nat :: i < b ==> order[i] == b - 1 - i
        invariant bufs == seq(n, i => Buf(Key(0, 0), false, false, 0, false, data)) && this.disk == disk == latest
      {
        Push(b);
        b := b + 1;
      }
      forall b: nat | b < n ensures b in order { assert order[n - 1 - b] == b; }
    }

    /** Links b in after the head. */
    method Push(b: nat)
      requires Ring(next, prev, order, n) && b < n && b !in order && next[n] <= n
      modifies this`next, this`prev, this`order
      ensures Ring(next, prev, order, n) && order == [b] + old(order) && next[n] <= n
    {
      PushFront(next, prev, order, n, b, next[b := next[n]][n := b], prev[b := n][next[n] := b]);
      next := next[b := next[n]];
      prev := prev[b := n];
      prev := prev[next[n] := b];
      next := next[n := b];
      order := [b] + order;
    }

    /** bget's first loop: the buffer that holds k. */
    method Find(k: Key) returns (r: Option<nat>)
      requires Valid()
      ensures r.Some? ==> r.value < n && bufs[r.value].key == k
      ensures r.None? ==> !Cached(bufs, k)
    {
      ghost var i: nat := 0;
      assert LinkOk(next, prev, order, n, 0);
      var b := next[n];
      while b != n
        invariant i <= n && b == At(order, n, i + 1)
        invariant forall x: nat :: x < i ==> bufs[order[x]].key != k
        decreases n - i
      {
        if bufs[b].key == k { return Some(b); }
        i := i + 1;
        assert LinkOk(next, prev, order, n, i);
        b := next[b];
      }
      assert i == n;
      forall x: nat | x < n ensures bufs[x].key != k {
        assert x in order;
      }
      r := None;
    }

    /** bget's second loop: the least recently used buffer that may be recycled. */
    method FindIdle() returns (r: Option<nat>, ghost i: nat)
      requires Valid()
      ensures r.None? ==> forall x: nat :: x < n ==> !Idle(bufs[x])
      ensures r.Some? ==> i < n && r.value == order[i] && r.value < n && Idle(bufs[r.value])
      ensures r.Some? ==> forall x: nat :: i < x < n ==> !Idle(bufs[order[x]])
    {
      i := n;
      assert LinkOk(next, prev, order, n, n);
      var b := prev[n];
      while b != n
        invariant i <= n && b == At(order, n, i)
        invariant forall x: nat :: i <= x < n ==> !Idle(bufs[order[x]])
        decreases i
      {
        if bufs[b].refcnt == 0 && !bufs[b].dirty {
          i := i - 1;
          return Some(b), i;
        }
        i := i - 1;
        assert LinkOk(next, prev, order, n, i);
        b := prev[b];
      }
      forall x: nat | x < n ensures !Idle(bufs[x]) { assert x in order; }
      r := None;
    }

    /** A reference to the buffer for k; None, a panic, only if every buffer is referenced or dirty. */
    method Bget(k: Key) returns (r: Option<nat>)
      requires Valid() && k in disk && k.dev != 0
      modifies this`bufs
      ensures r.None? ==> bufs == old(bufs) && !Cached(bufs, k) && forall x: nat :: x < n ==> !Idle(bufs[x])
      ensures Valid()
      ensures r.Some? ==> r.value < n && bufs == old(bufs)[r.value := bufs[r.value]] && bufs[r.value].key == k
      ensures r.Some? && old(Cached(bufs, k)) ==>
        bufs[r.value] == old(bufs)[r.value].(refcnt := old(bufs)[r.value].refcnt + 1)
      ensures r.Some? && !old(Cached(bufs, k)) ==>
        && Idle(old(bufs)[r.value]) && bufs[r.value].refcnt == 1
        && !bufs[r.value].valid && !bufs[r.value].dirty && !bufs[r.value].locked
        && exists i: nat :: i < n && order[i] == r.value && forall x: nat :: i < x < n ==> !Idle(old(bufs)[order[x]])
    {
      r := Find(k);
      hide Ring, Unique, Agrees;
      if r.Some? {
        var b := r.value;
        AtBuf(bufs, disk, latest, b);
        ChangeBuf(bufs, disk, latest, b, bufs[b].(refcnt := bufs[b].refcnt + 1), disk, latest);
        bufs := bufs[b := bufs[b].(refcnt := bufs[b].refcnt + 1)];
        return;
      }
      ghost var i: nat;
      r, i := FindIdle();
      if r.Some? {
        var b := r.value;
        Recycle(bufs, disk, latest, b, k, Buf(k, false, false, 1, false, bufs[b].data));
        bufs := bufs[b := Buf(k, false, false, 1, false, bufs[b].data)];
      }
    }

    /** The rest of bread, once the buffer's lock is free: the contents are the latest. */
    method Bread(b: nat)
      requires Valid() && b < n && bufs[b].refcnt > 0 && !bufs[b].locked
      modifies this`bufs
      ensures Valid() && bufs == old(bufs)[b := old(bufs)[b].(valid := true, locked := true, data := bufs[b].data)]
      ensures bufs[b].key in latest && bufs[b].data == latest[bufs[b].key]
    {
      AtBuf(bufs, disk, latest, b);
      hide Ring, Unique, Agrees;
      var data := if bufs[b].valid then bufs[b].data else disk[bufs[b].key];
      ChangeBuf(bufs, disk, latest, b, bufs[b].(valid := true, locked := true, data := data), disk, latest);
      bufs := bufs[b := bufs[b].(locked := true)];
      if !bufs[b].valid { bufs := bufs[b := bufs[b].(valid := true, data := disk[bufs[b].key])]; }
      assert bufs == old(bufs)[b := old(bufs)[b].(valid := true, locked := true, data := data)];
    }

    /** The holder of a buffer changes its data. */
    method Modify(b: nat, data: Block)
      requires Valid() && b < n && bufs[b].locked && bufs[b].valid
      modifies this`bufs
      ensures Valid() && bufs == old(bufs)[b := old(bufs)[b].(data := data)]
    {
      AtBuf(bufs, disk, latest, b);
      hide Ring, Unique, Agrees;
      ChangeBuf(bufs, disk, latest, b, bufs[b].(data := data), disk, latest);
      bufs := bufs[b := bufs[b].(data := data)];
    }

    /** log_write's part: the buffer is pinned as dirty. */
    method LogWrite(b: nat)
      requires Valid() && b < n && bufs[b].locked && bufs[b].valid
      modifies this`bufs, this`latest
      ensures Valid() && bufs == old(bufs)[b := old(bufs)[b].(dirty := true)]
      ensures latest == old(latest)[bufs[b].key := bufs[b].data]
    {
      AtBuf(bufs, disk, latest, b);
      hide Ring, Unique, Agrees;
      ChangeBuf(bufs, disk, latest, b, bufs[b].(dirty := true), disk, latest[bufs[b].key := bufs[b].data]);
      bufs := bufs[b := bufs[b].(dirty := true)];
      latest := latest[bufs[b].key := bufs[b].data];
    }

    method Bwrite(b: nat)
      requires Valid() && b < n && bufs[b].locked && bufs[b].valid
      modifies this`bufs, this`disk, this`latest
      ensures Valid() && bufs == old(bufs)[b := old(bufs)[b].(dirty := false)]
      ensures disk == old(disk)[bufs[b].key := bufs[b].data] && latest == old(latest)[bufs[b].key := bufs[b].data]
    {
      AtBuf(bufs, disk, latest, b);
      hide Ring, Unique, Agrees;
      ChangeBuf(bufs, disk, latest, b, bufs[b].(dirty := false), disk[bufs[b].key := bufs[b].data],
                latest[bufs[b].key := bufs[b].data]);
      disk := disk[bufs[b].key := bufs[b].data];
      latest := latest[bufs[b].key := bufs[b].data];
      bufs := bufs[b := bufs[b].(dirty := false)];
    }

    /** Unlinks b and links it in at the front. */
    method MoveToFront(b: nat, ghost j: nat)
      requires Ring(next, prev, order, n) && j < |order| && order[j] == b && b < n
      modifies this`next, this`prev, this`order
      ensures Ring(next, prev, order, n) && order == [b] + Without(old(order), j)
    {
      assert LinkOk(next, prev, order, n, j) && LinkOk(next, prev, order, n, j + 1) && LinkOk(next, prev, order, n, 0);
      InRange(next, prev, order, n, j);
      Unlink(next, prev, order, n, j, next[prev[b] := next[b]], prev[next[b] := prev[b]]);
      prev := prev[next[b] := prev[b]];
      next := next[prev[b] := next[b]];
      order := Without(order, j);
      NotThere(old(order), j);
      InRange(next, prev, order, n, 0);
      Push(b);
    }

    /** Gives the buffer back: a changed one only after log_write or bwrite. */
    method Brelse(b: nat)
      requires Valid() && b < n && bufs[b].locked && bufs[b].valid
      requires bufs[b].key in latest && bufs[b].data == latest[bufs[b].key]
      modifies this`bufs, this`next, this`prev, this`order
      ensures Valid()
      ensures bufs == old(bufs)[b := old(bufs)[b].(locked := false, refcnt := bufs[b].refcnt)]
      ensures bufs[b].refcnt == old(bufs)[b].refcnt - 1
      ensures if bufs[b].refcnt == 0 then Moved(old(order), order, b) else order == old(order)
    {
      AtBuf(bufs, disk, latest, b);
      hide Unique, Agrees, BufOk;
      ChangeBuf(bufs, disk, latest, b, bufs[b].(locked := false, refcnt := bufs[b].refcnt - 1), disk, latest);
      bufs := bufs[b := bufs[b].(locked := false)];
      bufs := bufs[b := bufs[b].(refcnt := bufs[b].refcnt - 1)];
      assert bufs == old(bufs)[b := old(bufs)[b].(locked := false, refcnt := old(bufs)[b].refcnt - 1)];
      if bufs[b].refcnt == 0 {
        assert b in order;
        ghost var j: nat :| j < |order| && order[j] == b;
        ghost var order0 := order;
        hide Ring;
        MoveToFront(b, j);
        SameElements(order0, j);
        assert Moved(order0, order, b);
      }
    }
  }

  /** b goes to the front and the others keep their order. */
  ghost predicate Moved(order: seq<nat>, order': seq<nat>, b: nat) {
    exists j: nat :: j < |order| && order[j] == b && order' == [b] + Without(order, j)
  }

  /** The orders of the list along a run in which the buffers bs, one after the other, lost their last reference. */
  ghost predicate Releases(orders: seq<seq<nat>>, bs: seq<nat>) {
    && |orders| == |bs| + 1 && Distinct(orders[0])
    && forall k: nat {:trigger bs[k]} :: k < |bs| ==> Moved(orders[k], orders[k + 1], bs[k])
  }

  /** When x last lost its last reference; 0 if it never did. */
  function LastUse(bs: seq<nat>, x: nat): nat {
    if bs == [] then 0 else if bs[|bs| - 1] == x then |bs| else LastUse(bs[..|bs| - 1], x)
  }

  lemma UseBound(bs: seq<nat>, x: nat)
    ensures LastUse(bs, x) <= |bs|
  {
  }

  /** Where the buffers behind the moved one come from. */
  lemma MovedFrom(order: seq<nat>, order': seq<nat>, b: nat, j: nat, i: nat)
    requires Distinct(order) && j < |order| && order[j] == b && order' == [b] + Without(order, j) && 0 < i < |order'|
    ensures i < |order| && order'[i] == order[if i <= j then i - 1 else i] != b
  {
  }

  lemma {:induction false} ReleasesDistinct(orders: seq<seq<nat>>, bs: seq<nat>, k: nat)
    requires Releases(orders, bs) && k <= |bs|
    ensures Distinct(orders[k])
  {
    if k > 0 {
      ReleasesDistinct(orders, bs, k - 1);
      var order, order', b := orders[k - 1], orders[k], bs[k - 1];
      var j: nat :| j < |order| && order[j] == b && order' == [b] + Without(order, j);
      forall x, y | 0 <= x < y < |order'| ensures order'[x] != order'[y] {
        MovedFrom(order, order', b, j, y);
        if x > 0 { MovedFrom(order, order', b, j, x); }
      }
    }
  }

  /** The list is in order of last use: what was used later comes first. */
  lemma {:induction false} RecentFirst(orders: seq<seq<nat>>, bs: seq<nat>, x: nat, y: nat)
    requires Releases(orders, bs) && x < y < |orders[|bs|]|
    ensures LastUse(bs, orders[|bs|][x]) >= LastUse(bs, orders[|bs|][y])
    decreases |bs|
  {
    if bs != [] {
      var m := |bs| - 1;
      var order, order', b := orders[m], orders[m + 1], bs[m];
      ReleasesDistinct(orders, bs, m);
      var j: nat :| j < |order| && order[j] == b && order' == [b] + Without(order, j);
      MovedFrom(order, order', b, j, y);
      UseBound(bs, order'[y]);
      if x > 0 {
        MovedFrom(order, order', b, j, x);
        Earlier(orders, bs);
        RecentFirst(orders[..|bs|], bs[..m], if x <= j then x - 1 else x, if y <= j then y - 1 else y);
      }
    }
  }

  lemma Earlier(orders: seq<seq<nat>>, bs: seq<nat>)
    requires Releases(orders, bs) && bs != []
    ensures Releases(orders[..|bs|], bs[..|bs| - 1])
  {
    var before := bs[..|bs| - 1];
    forall k: nat | k < |before| ensures Moved(orders[k], orders[k + 1], before[k]) { assert before[k] == bs[k]; }
  }

  /**
   * The buffer that bget recycles, the last one of the list that may be, is the one of these that was used least
   * recently.
   */
  lemma LeastRecentlyUsed(orders: seq<seq<nat>>, bs: seq<nat>, bufs: seq<Buf>, i: nat, b: nat)
    requires Releases(orders, bs) && i < |orders[|bs|]| && b in orders[|bs|] && b < |bufs| && Idle(bufs[b])
    requires forall x: nat :: x < |orders[|bs|]| ==> orders[|bs|][x] < |bufs|
    requires forall x: nat :: i < x < |orders[|bs|]| ==> !Idle(bufs[orders[|bs|][x]])
    ensures LastUse(bs, orders[|bs|][i]) <= LastUse(bs, b)
  {
    var y: nat :| y < |orders[|bs|]| && orders[|bs|][y] == b;
    if y < i { RecentFirst(orders, bs, y, i); }
  }

  lemma AtBuf(bufs: seq<Buf>, disk: Disk, latest: Disk, b: nat)
    requires Agrees(bufs, disk, latest) && b < |bufs|
    ensures BufOk(bufs[b], disk, latest)
  {
  }

  lemma SameElements(order: seq<nat>, j: nat)
    requires j < |order|
    ensures multiset([order[j]] + Without(order, j)) == multiset(order) && |[order[j]] + Without(order, j)| == |order|
    ensures forall b :: b in order ==> b in [order[j]] + Without(order, j)
  {
    assert order == order[..j] + [order[j]] + order[j + 1..];
    forall b | b in order ensures b in [order[j]] + Without(order, j) {
      assert b in multiset(order);
      assert b in multiset([order[j]] + Without(order, j));
    }
  }

  lemma InRange(next: seq<nat>, prev: seq<nat>, order: seq<nat>, h: nat, j: nat)
    requires Ring(next, prev, order, h) && j <= |order|
    ensures next[h] <= h && (j < |order| ==> order[j] < h && next[order[j]] <= h && prev[order[j]] <= h)
  {
    assert LinkOk(next, prev, order, h, 0);
    if j < |order| { assert LinkOk(next, prev, order, h, j) && LinkOk(next, prev, order, h, j + 1); }
  }

  lemma NotThere(order: seq<nat>, j: nat)
    requires Distinct(order) && j < |order|
    ensures order[j] !in Without(order, j)
  {
    var o := Without(order, j);
    forall x: nat | x < |o| ensures o[x] != order[j] {
      if x < j { assert o[x] == order[x]; } else { assert o[x] == order[x + 1]; }
    }
  }
}
