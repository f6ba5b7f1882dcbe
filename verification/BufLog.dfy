/**
 * The buffer cache under the log.  The dirty buffers of bio.c are the pinned blocks of the log machine, the disk is
 * its disk, and what bread returns is what the machine's kernel sees, so that the machine, and the store that the
 * file system works on, are abstractions of the cache.
 */
module BufLog {
  import opened Common
  import opened Blocks
  import opened LogMachine
  import Bio

  /** What Bio.Cache holds, without the order of its list. */
  datatype Bufs = Bufs(bufs: seq<Bio.Buf>, disk: Bio.Disk, latest: Bio.Disk)

  ghost predicate Ok(c: Bufs) { Bio.Unique(c.bufs) && Bio.Agrees(c.bufs, c.disk, c.latest) }

  /** Block b has a dirty buffer. */
  ghost predicate Pinned(bufs: seq<Bio.Buf>, dev: nat, b: nat) {
    exists i: nat :: i < |bufs| && bufs[i].key == Bio.Key(dev, b) && bufs[i].dirty
  }

  /** Block b is on disk, and in memory, as the machine has it. */
  ghost predicate BlockOk(c: Bufs, dev: nat, s: State, b: nat)
    requires b < |s.disk|
  {
    && Bio.Key(dev, b) in c.disk && c.disk[Bio.Key(dev, b)] == s.disk[b]
    && Bio.Key(dev, b) in c.latest && c.latest[Bio.Key(dev, b)] == View(s.disk, s.cache, b)
  }

  /** The cache implements the machine's state on device dev. */
  ghost predicate Refines(c: Bufs, dev: nat, s: State) {
    && (forall b: nat {:trigger BlockOk(c, dev, s, b)} :: b < |s.disk| ==> BlockOk(c, dev, s, b))
    && (forall b: nat {:trigger Pinned(c.bufs, dev, b)} :: b in s.cache <==> Pinned(c.bufs, dev, b))
  }

  // ---- the methods of the cache, as changes of its value ----

  /** bget, bread, brelse and changes to the data: no buffer gains or loses the mark, or a marked one its block. */
  ghost predicate Neutral(c: Bufs, c': Bufs, i: nat) {
    && i < |c.bufs| == |c'.bufs| && c'.bufs == c.bufs[i := c'.bufs[i]] && c'.disk == c.disk && c'.latest == c.latest
    && c'.bufs[i].dirty == c.bufs[i].dirty && (c.bufs[i].dirty ==> c'.bufs[i].key == c.bufs[i].key)
  }

  /** log_write. */
  ghost predicate Logs(c: Bufs, c': Bufs, i: nat) {
    && i < |c.bufs| && c'.bufs == c.bufs[i := c.bufs[i].(dirty := true)] && c'.disk == c.disk
    && c'.latest == c.latest[c.bufs[i].key := c.bufs[i].data]
  }

  /** bwrite. */
  ghost predicate Writes(c: Bufs, c': Bufs, i: nat) {
    && i < |c.bufs| && c'.bufs == c.bufs[i := c.bufs[i].(dirty := false)]
    && c'.disk == c.disk[c.bufs[i].key := c.bufs[i].data] && c'.latest == c.latest[c.bufs[i].key := c.bufs[i].data]
  }

  /** The machine starts again: no buffer is dirty. */
  ghost predicate Boots(c: Bufs, c': Bufs) {
    c'.disk == c.disk == c'.latest && forall i: nat {:trigger c'.bufs[i]} :: i < |c'.bufs| ==> !c'.bufs[i].dirty
  }

  // ---- each of them is a step of the machine ----

  lemma NeutralRefines(c: Bufs, c': Bufs, dev: nat, s: State, i: nat)
    requires Refines(c, dev, s) && Neutral(c, c', i)
    ensures Refines(c', dev, s)
  {
    forall b: nat ensures Pinned(c'.bufs, dev, b) <==> Pinned(c.bufs, dev, b) {
      PinnedBut(c.bufs, c'.bufs, dev, i, b);
    }
    forall b: nat | b < |s.disk| ensures BlockOk(c', dev, s, b) { assert BlockOk(c, dev, s, b); }
  }

  /** Only buffer i changed. */
  lemma PinnedBut(bufs: seq<Bio.Buf>, bufs': seq<Bio.Buf>, dev: nat, i: nat, b: nat)
    requires i < |bufs| == |bufs'| && bufs' == bufs[i := bufs'[i]]
    ensures Pinned(bufs', dev, b) <==>
      (bufs'[i].key == Bio.Key(dev, b) && bufs'[i].dirty)
      || exists j: nat :: j < |bufs| && j != i && bufs[j].key == Bio.Key(dev, b) && bufs[j].dirty
  {
    if Pinned(bufs', dev, b) {
      var j: nat :| j < |bufs'| && bufs'[j].key == Bio.Key(dev, b) && bufs'[j].dirty;
      if j != i { assert bufs[j] == bufs'[j]; }
    }
    if j: nat :| j < |bufs| && j != i && bufs[j].key == Bio.Key(dev, b) && bufs[j].dirty { assert bufs'[j] == bufs[j]; }
  }

  /** log_write pins the block with the new contents. */
  lemma LogsRefines(c: Bufs, c': Bufs, dev: nat, s: State, i: nat, b: nat, t: State)
    requires Refines(c, dev, s) && Logs(c, c', i) && c.bufs[i].key == Bio.Key(dev, b) && b < |s.disk|
    requires t.disk == s.disk && t.cache == s.cache[b := c.bufs[i].data]
    ensures Refines(c', dev, t)
  {
    forall x: nat ensures x in t.cache <==> Pinned(c'.bufs, dev, x) {
      PinnedBut(c.bufs, c'.bufs, dev, i, x);
      PinnedBut(c.bufs, c.bufs, dev, i, x);
      assert x in s.cache <==> Pinned(c.bufs, dev, x);
    }
    forall x: nat | x < |t.disk| ensures BlockOk(c', dev, t, x) { assert BlockOk(c, dev, s, x); }
  }

  /** bwrite writes the block through and unpins it. */
  lemma WritesRefines(c: Bufs, c': Bufs, dev: nat, s: State, i: nat, b: nat, t: State)
    requires Ok(c) && Refines(c, dev, s) && Writes(c, c', i)
    requires c.bufs[i].key == Bio.Key(dev, b) && b < |s.disk| && dev != 0
    requires t.disk == s.disk[b := c.bufs[i].data] && t.cache == s.cache - {b}
    ensures Refines(c', dev, t)
  {
    forall x: nat ensures x in t.cache <==> Pinned(c'.bufs, dev, x) {
      PinnedBut(c.bufs, c'.bufs, dev, i, x);
      PinnedBut(c.bufs, c.bufs, dev, i, x);
      assert x in s.cache <==> Pinned(c.bufs, dev, x);
      if x == b { OneBuffer(c.bufs, i, dev, b); }
    }
    forall x: nat | x < |t.disk| ensures BlockOk(c', dev, t, x) { assert BlockOk(c, dev, s, x); }
  }

  lemma OneBuffer(bufs: seq<Bio.Buf>, i: nat, dev: nat, b: nat)
    requires Bio.Unique(bufs) && i < |bufs| && bufs[i].key == Bio.Key(dev, b) && dev != 0
    ensures forall j: nat :: j < |bufs| && j != i ==> bufs[j].key != Bio.Key(dev, b)
  {
  }

  /** A crash loses the buffers, and the machine its pinned blocks. */
  lemma BootsRefines(c: Bufs, c': Bufs, dev: nat, s: State, t: State)
    requires Refines(c, dev, s) && Boots(c, c') && Next(s, Crash) == Some(t)
    ensures Refines(c', dev, t)
  {
    forall x: nat | x < |t.disk| ensures BlockOk(c', dev, t, x) { assert BlockOk(c, dev, s, x); }
  }

  /** What bread returns of a home block, between commits, is the result of all writes: the file system's store. */
  lemma ReadsCurrent(c: Bufs, dev: nat, s: State, b: nat)
    requires Refines(c, dev, s) && Inv(s) && s.phase.Running? && s.layout.Home(b)
    ensures Bio.Key(dev, b) in c.latest && b < |s.Current()| && c.latest[Bio.Key(dev, b)] == s.Current()[b]
  {
    WithinBase(s);
    assert BlockOk(c, dev, s, b);
    assert View(s.disk, s.cache, b) == s.Current()[b];
  }

  // ---- the loops of log.c on the cache ----

  ghost function Of(cache: Bio.Cache): Bufs
    reads cache
  {
    Bufs(cache.bufs, cache.disk, cache.latest)
  }

  /** No process has the buffer of block b locked. */
  ghost predicate Unlocked(bufs: seq<Bio.Buf>, dev: nat, b: nat) {
    forall i: nat {:trigger bufs[i]} :: i < |bufs| && bufs[i].key == Bio.Key(dev, b) ==> !bufs[i].locked
  }

  /** Buffer i holds block b, locked, as the machine has it. */
  ghost predicate Held(cache: Bio.Cache, dev: nat, s: State, b: nat, i: nat)
    reads cache
  {
    && i < cache.n == |cache.bufs| && b < |s.disk| && cache.bufs[i].key == Bio.Key(dev, b)
    && cache.bufs[i].locked && cache.bufs[i].valid && cache.bufs[i].data == View(s.disk, s.cache, b)
  }

  /** bget finds a buffer: the block has one, or some buffer can be recycled. */
  ghost predicate Obtainable(bufs: seq<Bio.Buf>, dev: nat, b: nat) {
    Bio.Cached(bufs, Bio.Key(dev, b)) || exists x: nat :: x < |bufs| && Bio.Idle(bufs[x])
  }

  /** Two buffers can be recycled. */
  ghost predicate TwoIdle(bufs: seq<Bio.Buf>) {
    exists x: nat, y: nat :: x < y < |bufs| && Bio.Idle(bufs[x]) && Bio.Idle(bufs[y])
  }

  /** Whichever buffer is taken first, one is left. */
  lemma OneLeft(bufs: seq<Bio.Buf>, i: nat, buf: Bio.Buf, dev: nat, b: nat)
    requires TwoIdle(bufs) && i < |bufs|
    ensures Obtainable(bufs, dev, b) && Obtainable(bufs[i := buf], dev, b)
  {
    var x, y :| 0 <= x < y < |bufs| && Bio.Idle(bufs[x]) && Bio.Idle(bufs[y]);
    var z := if i == x then y else x;
    assert bufs[i := buf][z] == bufs[z];
  }

  /** bread once the buffer's lock is free; None where the kernel panics. */
  method Bread(cache: Bio.Cache, dev: nat, b: nat, ghost s: State) returns (r: Option<nat>)
    requires cache.Valid() && Refines(Of(cache), dev, s) && b < |s.disk| && dev != 0 && Unlocked(cache.bufs, dev, b)
    modifies cache
    ensures cache.Valid() && Refines(Of(cache), dev, s)
    ensures r.Some? <==> Obtainable(old(cache.bufs), dev, b)
    ensures r.Some? ==> Held(cache, dev, s, b, r.value) && |old(cache.bufs)| == cache.n
    ensures r.Some? ==> cache.bufs == old(cache.bufs)[r.value := cache.bufs[r.value]]
    ensures r.Some? ==> !old(cache.bufs)[r.value].locked
  {
    assert BlockOk(Of(cache), dev, s, b);
    ghost var c0 := Of(cache);
    r := cache.Bget(Bio.Key(dev, b));
    if r.None? { return; }
    var i := r.value;
    NeutralRefines(c0, Of(cache), dev, s, i);
    ghost var c1 := Of(cache);
    cache.Bread(i);
    NeutralRefines(c1, Of(cache), dev, s, i);
  }

  lemma HeldLatest(cache: Bio.Cache, dev: nat, s: State, b: nat, i: nat)
    requires Refines(Of(cache), dev, s) && Held(cache, dev, s, b, i)
    ensures cache.bufs[i].key in cache.latest && cache.bufs[i].data == cache.latest[cache.bufs[i].key]
  {
    assert BlockOk(Of(cache), dev, s, b);
  }

  /** Gives a buffer back whose contents are those of the machine. */
  method Release(cache: Bio.Cache, dev: nat, b: nat, i: nat, ghost s: State)
    requires cache.Valid() && Refines(Of(cache), dev, s) && Held(cache, dev, s, b, i)
    modifies cache
    ensures cache.Valid() && Refines(Of(cache), dev, s) && |old(cache.bufs)| == cache.n == |cache.bufs|
    ensures cache.bufs == old(cache.bufs)[i := cache.bufs[i]] && !cache.bufs[i].locked
  {
    HeldLatest(cache, dev, s, b, i);
    ghost var c := Of(cache);
    cache.Brelse(i);
    NeutralRefines(c, Of(cache), dev, s, i);
  }

  /** Stores contents in a held buffer and writes it. */
  method WriteThrough(cache: Bio.Cache, dev: nat, b: nat, i: nat, data: Block, ghost s: State, ghost t: State)
    requires cache.Valid() && Refines(Of(cache), dev, s) && Held(cache, dev, s, b, i) && dev != 0
    requires t.disk == s.disk[b := data] && t.cache == s.cache - {b}
    modifies cache
    ensures cache.Valid() && Refines(Of(cache), dev, t) && Held(cache, dev, t, b, i) && |old(cache.bufs)| == cache.n
    ensures cache.bufs == old(cache.bufs)[i := cache.bufs[i]]
  {
    ghost var c := Of(cache);
    cache.Modify(i, data);
    NeutralRefines(c, Of(cache), dev, s, i);
    c := Of(cache);
    cache.Bwrite(i);
    WritesRefines(c, Of(cache), dev, s, i, b, t);
  }

  /**
   * One turn of write_log or install_trans: both buffers are read, the contents copied, and the copy written.
   * ok is false where the kernel panics for want of a buffer.
   */
  method CopyBlock(cache: Bio.Cache, dev: nat, from: nat, to: nat, ghost s: State, ghost t: State) returns (ok: bool)
    requires cache.Valid() && Refines(Of(cache), dev, s) && dev != 0 && from != to && from < |s.disk| && to < |s.disk|
    requires Unlocked(cache.bufs, dev, from) && Unlocked(cache.bufs, dev, to)
    requires t.disk == s.disk[to := View(s.disk, s.cache, from)] && t.cache == s.cache - {to}
    modifies cache
    ensures cache.Valid() && (ok ==> Refines(Of(cache), dev, t)) && (TwoIdle(old(cache.bufs)) ==> ok)
  {
    hide Refines, Obtainable, TwoIdle;
    ghost var bufs0 := cache.bufs;
    var src := Bread(cache, dev, from, s);
    if TwoIdle(bufs0) { CopyHasBuffers(bufs0, cache.bufs, src, dev, from, to); }
    if src.None? { return false; }
    var dst := Bread(cache, dev, to, s);
    if dst.None? { return false; }
    var i, j := src.value, dst.value;
    WriteThrough(cache, dev, to, j, cache.bufs[i].data, s, t);
    Release(cache, dev, from, i, t);
    Release(cache, dev, to, j, t);
    ok := true;
  }

  lemma CopyHasBuffers(bufs: seq<Bio.Buf>, bufs': seq<Bio.Buf>, src: Option<nat>, dev: nat, from: nat, to: nat)
    requires TwoIdle(bufs)
    requires src.Some? ==> src.value < |bufs| == |bufs'| && bufs' == bufs[src.value := bufs'[src.value]]
    ensures Obtainable(bufs, dev, from) && (src.Some? ==> Obtainable(bufs', dev, to))
  {
    if src.Some? { OneLeft(bufs, src.value, bufs'[src.value], dev, to); }
  }

  /** write_log's turn on the cache is the machine's step. */
  method WriteLogTurn(cache: Bio.Cache, dev: nat, start: nat, lh: seq<nat>, tail: nat, ghost s: State)
    returns (ok: bool, ghost t: State)
    requires cache.Valid() && Refines(Of(cache), dev, s) && dev != 0
    requires Inv(s) && s.phase == Logging(tail) && tail < |lh|
    requires s.lh == lh && s.layout.start == start
    requires Unlocked(cache.bufs, dev, lh[tail]) && Unlocked(cache.bufs, dev, start + 1 + tail)
    modifies cache
    ensures cache.Valid() && Next(s, WriteLogBlock) == Some(t) && (ok ==> Refines(Of(cache), dev, t))
    ensures TwoIdle(old(cache.bufs)) ==> ok
  {
    hide Refines;
    WriteLogBlockNext(s, tail);
    t := Next(s, WriteLogBlock).value;
    LogNotPinned(s, tail);
    ok := CopyBlock(cache, dev, lh[tail], start + 1 + tail, s, t);
  }

  lemma LogNotPinned(s: State, k: nat)
    requires Inv(s) && s.phase == Logging(k) && k < |s.lh|
    ensures s.layout.start + 1 + k !in s.cache && s.lh[k] != s.layout.start + 1 + k
    ensures s.cache - {s.layout.start + 1 + k} == s.cache
  {
    assert s.layout.Home(s.lh[k]);
  }

  /** install_trans's turn on the cache is the machine's step; after a commit it unpins the block. */
  method InstallTurn(cache: Bio.Cache, dev: nat, start: nat, lh: seq<nat>, tail: nat, ghost s: State)
    returns (ok: bool, ghost t: State)
    requires cache.Valid() && Refines(Of(cache), dev, s) && dev != 0
    requires Inv(s) && s.phase == Installing(tail) && tail < |lh|
    requires s.lh == lh && s.layout.start == start
    requires Unlocked(cache.bufs, dev, lh[tail]) && Unlocked(cache.bufs, dev, start + 1 + tail)
    modifies cache
    ensures cache.Valid() && Next(s, InstallBlock) == Some(t) && (ok ==> Refines(Of(cache), dev, t))
    ensures TwoIdle(old(cache.bufs)) ==> ok
  {
    hide Refines;
    InstallBlockNext(s, tail);
    t := Next(s, InstallBlock).value;
    HomeNotLog(s, tail);
    ok := CopyBlock(cache, dev, start + 1 + tail, lh[tail], s, t);
  }

  lemma HomeNotLog(s: State, k: nat)
    requires Inv(s) && s.phase == Installing(k) && k < |s.lh|
    ensures s.lh[k] != s.layout.start + 1 + k
  {
    assert s.layout.Home(s.lh[k]);
  }

  /** write_head on the cache: the header block is written through. */
  method WriteHeadTurn(cache: Bio.Cache, dev: nat, start: nat, lh: seq<nat>, ghost s: State)
    returns (ok: bool, ghost t: State)
    requires cache.Valid() && Refines(Of(cache), dev, s) && dev != 0 && Inv(s) && s.layout.start == start
    requires (s.phase == Logging(|s.lh|) && s.lh != [] && lh == s.lh) || (s.phase == Installing(|s.lh|) && lh == [])
    requires Unlocked(cache.bufs, dev, start)
    modifies cache
    ensures cache.Valid() && Next(s, if lh == [] then ClearHeader else WriteHeader) == Some(t)
    ensures (ok ==> Refines(Of(cache), dev, t)) && (ok <==> Obtainable(old(cache.bufs), dev, start))
  {
    hide Refines, Obtainable;
    HeaderNext(s);
    t := Next(s, if lh == [] then ClearHeader else WriteHeader).value;
    HeaderNotPinned(s);
    var r := Bread(cache, dev, start, s);
    if r.None? { return false, t; }
    WriteThrough(cache, dev, start, r.value, Headed(cache.bufs[r.value].data, lh), s, t);
    Release(cache, dev, start, r.value, t);
    ok := true;
  }

  lemma HeaderNotPinned(s: State)
    requires Inv(s) && (s.phase.Logging? || s.phase.Installing?)
    ensures s.layout.start !in s.cache && s.cache - {s.layout.start} == s.cache
  {
  }

  /** log_write on the cache, by the holder of the buffer, is the machine's step. */
  method LogWriteTurn(cache: Bio.Cache, dev: nat, b: nat, i: nat, ghost k: nat, ghost s: State) returns (ghost t: State)
    requires cache.Valid() && Refines(Of(cache), dev, s) && dev != 0 && b < |s.disk|
    requires i < cache.n == |cache.bufs| && cache.bufs[i].key == Bio.Key(dev, b)
    requires cache.bufs[i].locked && cache.bufs[i].valid
    requires Next(s, LogWrite(k, b, cache.bufs[i].data)).Some?
    modifies cache
    ensures cache.Valid() && Next(s, LogWrite(k, b, old(cache.bufs[i].data))) == Some(t) && Refines(Of(cache), dev, t)
  {
    t := Next(s, LogWrite(k, b, cache.bufs[i].data)).value;
    ghost var c := Of(cache);
    cache.LogWrite(i);
    LogsRefines(c, Of(cache), dev, s, i, b, t);
  }
}
