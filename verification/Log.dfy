/**
 * The write-ahead log: group commit, crashes and recovery, as a machine whose steps are the
 * lock-protected sections of begin_op, log_write and end_op and the single block writes of
 * commit() and recover_from_log().  A crash may fall between any two steps.
 */
module LogMachine {
  import opened Common
  import opened Blocks

  const MAXOPBLOCKS := 10
  const LOGSIZE := 30

  type Disk = seq<Block>

  /** A block write recorded by log_write on behalf of one file-system operation. */
  datatype Write = Write(op: nat, blockno: nat, data: Block)

  /** An operation between begin_op and end_op, with the distinct blocks it has logged. */
  datatype Op = Op(id: nat, blocks: set<nat>)

  datatype Phase =
    | Booting                  // before read_head
    | Running                  // log.committing == 0
    | Logging(tail: nat)       // write_log
    | Installing(tail: nat)    // install_trans

  /** log.start, log.size and the number of blocks on the device. */
  datatype Layout = Layout(start: nat, size: nat, nblocks: nat) {
    predicate Valid() {
      2 <= size && start + size <= nblocks <= UINT_LIMIT
    }

    predicate Home(b: nat) {
      b < nblocks && !(start <= b < start + size)
    }
  }

  /** What bread returns: the pinned buffer if there is one, the disk otherwise. */
  function View(disk: Disk, cache: map<nat, Block>, b: nat): Block
    requires b < |disk|
  {
    if b in cache then cache[b] else disk[b]
  }

  /**
   * disk, cache (the pinned dirty buffers), lh and active are the kernel's state.  base, history,
   * durable, nextOp and finished are bookkeeping that no step's outcome on the former depends on.
   */
  datatype State = State(
    layout: Layout, disk: Disk, cache: map<nat, Block>, lh: seq<nat>, active: seq<Op>, phase: Phase,
    base: Disk, history: seq<Write>, durable: nat, nextOp: nat, finished: set<nat>)
  {
    /** The effect of the first durable writes, all of them and nothing else. */
    function Stable(): Disk {
      ApplyAll(base, Prefix(history, durable))
    }

    function Current(): Disk {
      ApplyAll(base, history)
    }
  }

  function Prefix(h: seq<Write>, n: nat): seq<Write> {
    if n <= |h| then h[..n] else h
  }

  datatype Event =
    | BeginOp
    | LogWrite(k: nat, blockno: nat, data: Block)
    | EndOp(k: nat)
    | CommitNothing
    | WriteLogBlock
    | WriteHeader
    | InstallBlock
    | ClearHeader
    | Crash
    | ReadHead

  function ApplyAll(base: Disk, h: seq<Write>): (d: Disk)
    ensures |d| == |base|
  {
    if h == [] then base
    else
      var d, w := ApplyAll(base, h[..|h| - 1]), h[|h| - 1];
      if w.blockno < |d| then d[w.blockno := w.data] else d
  }

  // ---- the header block ----

  predicate HeadFits(lh: seq<nat>) {
    |lh| < WORDS && forall i :: 0 <= i < |lh| ==> lh[i] < UINT_LIMIT
  }

  /** The header after the count and the first k block numbers are stored. */
  function PutHead(b: Block, lh: seq<nat>, k: nat): (r: Block)
    requires k <= |lh| && HeadFits(lh)
    ensures r.words[0] == |lh|
    ensures forall i :: 0 <= i < k ==> r.words[i + 1] == lh[i]
  {
    if k == 0 then Block(b.words[0 := |lh|]) else Block(PutHead(b, lh, k - 1).words[k := lh[k - 1]])
  }

  lemma PutHeadMore(b: Block, lh: seq<nat>, k: nat)
    requires HeadFits(lh) && k < |lh|
    ensures PutHead(b, lh, 0) == Block(b.words[0 := |lh|])
    ensures PutHead(b, lh, k + 1) == Block(PutHead(b, lh, k).words[k + 1 := lh[k]])
  {
  }

  /** What write_head leaves in the header block. */
  function Headed(b: Block, lh: seq<nat>): (r: Block)
    requires HeadFits(lh)
  {
    PutHead(b, lh, |lh|)
  }

  /** The first k block numbers of a header. */
  function Entries(b: Block, k: nat): (lh: seq<nat>)
    requires k < WORDS
    ensures |lh| == k
    ensures forall i :: 0 <= i < k ==> lh[i] == b.words[i + 1]
  {
    if k == 0 then [] else Entries(b, k - 1) + [b.words[k]]
  }

  function Head(b: Block): seq<nat> {
    if b.words[0] < WORDS then Entries(b, b.words[0]) else []
  }

  lemma HeadOfHeaded(b: Block, lh: seq<nat>)
    requires HeadFits(lh)
    ensures Head(Headed(b, lh)) == lh && Headed(b, lh).words[0] < WORDS
  {
  }

  // ---- the steps ----

  /** log_write panics unless this holds (log.c:218); the test comes before absorption. */
  predicate RoomForWrite(s: State) {
    |s.lh| < LOGSIZE && |s.lh| < s.layout.size - 1
  }

  /** One step, or None when the kernel waits or panics instead. */
  function Next(s: State, e: Event): Option<State> {
    match e
    case BeginOp =>
      if s.phase.Running? && |s.lh| + (|s.active| + 1) * MAXOPBLOCKS <= LOGSIZE then
        Some(s.(active := s.active + [Op(s.nextOp, {})], nextOp := s.nextOp + 1))
      else None
    case LogWrite(k, b, data) =>
      if s.phase.Running? && k < |s.active| && s.layout.Home(b) && RoomForWrite(s) then
        var op := s.active[k];
        Some(s.(cache := s.cache[b := data],
                lh := Absorb(s.lh, b),
                active := s.active[k := op.(blocks := op.blocks + {b})],
                history := s.history + [Write(op.id, b, data)]))
      else None
    case EndOp(k) =>
      if s.phase.Running? && k < |s.active| then
        var rest := s.active[..k] + s.active[k + 1..];
        Some(s.(active := rest,
                phase := if rest == [] then Logging(0) else Running,
                finished := s.finished + {s.active[k].id}))
      else None
    case CommitNothing =>
      if s.phase == Logging(0) && s.lh == [] then
        Some(s.(phase := Running, durable := |s.history|))
      else None
    case WriteLogBlock =>
      if s.phase.Logging? && s.phase.tail < |s.lh| && TailFits(s, s.phase.tail) then
        var t := s.phase.tail;
        Some(s.(disk := s.disk[s.layout.start + 1 + t := View(s.disk, s.cache, s.lh[t])],
                phase := Logging(t + 1)))
      else None
    case WriteHeader =>
      if s.phase == Logging(|s.lh|) && s.lh != [] && HeadFits(s.lh) && s.layout.start < |s.disk| then
        Some(s.(disk := s.disk[s.layout.start := Headed(s.disk[s.layout.start], s.lh)],
                phase := Installing(0), durable := |s.history|))
      else None
    case InstallBlock =>
      if s.phase.Installing? && s.phase.tail < |s.lh| && TailFits(s, s.phase.tail) then
        var t := s.phase.tail;
        Some(s.(disk := s.disk[s.lh[t] := View(s.disk, s.cache, s.layout.start + 1 + t)],
                cache := s.cache - {s.lh[t]}, phase := Installing(t + 1)))
      else None
    case ClearHeader =>
      if s.phase == Installing(|s.lh|) && s.layout.start < |s.disk| then
        Some(s.(disk := s.disk[s.layout.start := Headed(s.disk[s.layout.start], [])],
                lh := [], phase := Running))
      else None
    case Crash =>
      Some(s.(cache := map[], lh := [], active := [], phase := Booting,
              history := Prefix(s.history, s.durable)))
    case ReadHead =>
      if s.phase.Booting? && s.layout.start < |s.disk| then
        Some(s.(lh := Head(s.disk[s.layout.start]), phase := Installing(0)))
      else None
  }

  /** log_write's list update: a block already listed is absorbed. */
  function Absorb(lh: seq<nat>, b: nat): seq<nat> {
    if b in lh then lh else lh + [b]
  }

  predicate TailFits(s: State, t: nat)
    requires t < |s.lh|
  {
    s.layout.start + 1 + t < |s.disk| && s.lh[t] < |s.disk|
  }

  /** A machine that boots from a disk whose log is empty. */
  ghost predicate Init(s: State) {
    && s.layout.Valid() && |s.disk| == s.layout.nblocks
    && s.disk[s.layout.start].words[0] == 0
    && s.cache == map[] && s.lh == [] && s.active == [] && s.phase.Booting?
    && s.base == s.disk && s.history == [] && s.durable == 0 && s.nextOp == 0 && s.finished == {}
  }

  ghost predicate Run(s: State, es: seq<Event>, t: State)
    decreases |es|
  {
    if es == [] then s == t
    else Next(s, es[0]).Some? && Run(Next(s, es[0]).value, es[1..], t)
  }

  // ---- what every reachable state satisfies ----

  /** A block list the log region has room for: distinct blocks, none of them in the log. */
  ghost predicate GoodHead(l: Layout, lh: seq<nat>) {
    && |lh| <= LOGSIZE && |lh| <= l.size - 1 && Distinct(lh)
    && forall i :: 0 <= i < |lh| ==> l.Home(lh[i])
  }

  /** With lh as its committed header, this disk stands for the contents d on every home block. */
  ghost predicate Holds(l: Layout, disk: Disk, lh: seq<nat>, d: Disk) {
    && l.Valid() && |d| == |disk| == l.nblocks
    && GoodHead(l, lh)
    && (forall i :: 0 <= i < |lh| ==> disk[l.start + 1 + i] == d[lh[i]])
    && (forall b: nat :: l.Home(b) && b !in lh ==> disk[b] == d[b])
  }

  /** Recovering from this disk yields the contents d on every home block. */
  ghost predicate Represents(l: Layout, disk: Disk, d: Disk) {
    l.start < |disk| && disk[l.start].words[0] < WORDS && Holds(l, disk, Head(disk[l.start]), d)
  }

  ghost predicate Agrees(l: Layout, disk: Disk, d: Disk) {
    |d| == |disk| == l.nblocks && forall b: nat :: l.Home(b) ==> disk[b] == d[b]
  }

  /** The kernel's view of every home block is d. */
  ghost predicate Shows(l: Layout, disk: Disk, cache: map<nat, Block>, lh: seq<nat>, d: Disk) {
    && |d| == |disk| == l.nblocks
    && cache.Keys == (set b | b in lh)
    && forall b: nat :: l.Home(b) ==> View(disk, cache, b) == d[b]
  }

  /** The first t pinned blocks have been copied to the log. */
  ghost predicate Copied(l: Layout, disk: Disk, cache: map<nat, Block>, lh: seq<nat>, t: nat) {
    && t <= |lh| && l.start + |lh| < |disk|
    && forall i :: 0 <= i < t ==> lh[i] in cache && disk[l.start + 1 + i] == cache[lh[i]]
  }

  /** Every home block that install_trans has no more to write holds its final contents. */
  ghost predicate Installed(l: Layout, disk: Disk, lh: seq<nat>, t: nat, d: Disk) {
    && t <= |lh| && |d| == |disk| == l.nblocks
    && forall b: nat :: l.Home(b) && b !in lh[t..] ==> disk[b] == d[b]
  }

  ghost predicate PhaseInv(s: State) {
    s.layout.start < |s.disk| &&
    var head := Head(s.disk[s.layout.start]);
    match s.phase
    case Running =>
      && head == [] && Shows(s.layout, s.disk, s.cache, s.lh, s.Current())
      && (s.active == [] ==> s.durable == |s.history|)
    case Logging(t) =>
      && head == [] && Shows(s.layout, s.disk, s.cache, s.lh, s.Current())
      && s.active == [] && Copied(s.layout, s.disk, s.cache, s.lh, t)
    case Installing(t) =>
      && head == s.lh && s.active == [] && s.durable == |s.history|
      && Installed(s.layout, s.disk, s.lh, t, s.Stable())
      && (forall b :: b in s.cache ==> b in s.lh[t..])
    case Booting =>
      s.active == [] && s.durable == |s.history| && s.cache == map[] && s.lh == []
  }

  /** Operations are all or nothing: none is partly durable, and only finished ones are durable. */
  ghost predicate OpsAtomic(h: seq<Write>, durable: nat, finished: set<nat>) {
    && durable <= |h|
    && (forall i :: 0 <= i < durable ==> h[i].op in finished)
    && (forall i, j :: 0 <= i < durable <= j < |h| ==> h[i].op != h[j].op)
  }

  ghost predicate IsActive(active: seq<Op>, id: nat) {
    exists k :: 0 <= k < |active| && active[k].id == id
  }

  ghost predicate OpsInv(h: seq<Write>, durable: nat, active: seq<Op>, nextOp: nat, finished: set<nat>) {
    && OpsAtomic(h, durable, finished)
    && (forall k :: 0 <= k < |active| ==> active[k].id < nextOp && active[k].id !in finished)
    && (forall k, l :: 0 <= k < l < |active| ==> active[k].id != active[l].id)
    && (forall x :: x in finished ==> x < nextOp)
    && (forall i :: 0 <= i < |h| ==> h[i].op in finished || IsActive(active, h[i].op))
  }

  ghost predicate Inv(s: State) {
    && Represents(s.layout, s.disk, s.Stable())
    && GoodHead(s.layout, s.lh)
    && OpsInv(s.history, s.durable, s.active, s.nextOp, s.finished)
    && PhaseInv(s)
  }

  // ---- every step keeps the invariant ----

  lemma ApplyAllSnoc(base: Disk, h: seq<Write>, w: Write)
    requires w.blockno < |base|
    ensures ApplyAll(base, h + [w]) == ApplyAll(base, h)[w.blockno := w.data]
  {
    assert (h + [w])[..|h + [w]| - 1] == h;
  }

  lemma LogWriteOps(h: seq<Write>, durable: nat, active: seq<Op>, nextOp: nat, finished: set<nat>,
                    k: nat, b: nat, data: Block)
    requires OpsInv(h, durable, active, nextOp, finished) && k < |active|
    ensures OpsInv(h + [Write(active[k].id, b, data)], durable,
                   active[k := active[k].(blocks := active[k].blocks + {b})], nextOp, finished)
  {
    var active' := active[k := active[k].(blocks := active[k].blocks + {b})];
    assert active'[k].id == active[k].id;
    forall i | 0 <= i < |h| && IsActive(active, h[i].op) ensures IsActive(active', h[i].op) {
      var j :| 0 <= j < |active| && active[j].id == h[i].op;
      assert active'[j].id == h[i].op;
    }
  }

  lemma LogWriteShows(l: Layout, disk: Disk, cache: map<nat, Block>, lh: seq<nat>, d: Disk, b: nat, data: Block)
    requires Shows(l, disk, cache, lh, d) && l.Home(b)
    ensures Shows(l, disk, cache[b := data], Absorb(lh, b), d[b := data])
  {
    var cache' := cache[b := data];
    forall x: nat | l.Home(x) ensures View(disk, cache', x) == d[b := data][x] {
      assert x != b ==> View(disk, cache', x) == View(disk, cache, x);
    }
  }

  lemma WithinBase(s: State)
    requires Inv(s)
    ensures |s.base| == |s.disk| == s.layout.nblocks && s.durable <= |s.history|
  {
  }

  lemma LogWriteKeeps(s: State, k: nat, b: nat, data: Block, t: State)
    requires Inv(s) && Next(s, LogWrite(k, b, data)) == Some(t)
    ensures Inv(t)
  {
    hide Represents, OpsInv, Shows, Head;
    WithinBase(s);
    ApplyAllSnoc(s.base, s.history, Write(s.active[k].id, b, data));
    LogWriteOps(s.history, s.durable, s.active, s.nextOp, s.finished, k, b, data);
    LogWriteShows(s.layout, s.disk, s.cache, s.lh, s.Current(), b, data);
    assert t.Stable() == s.Stable() by {
      assert t.history[..t.durable] == s.history[..s.durable];
    }
  }

  lemma BeginOpOps(h: seq<Write>, durable: nat, active: seq<Op>, nextOp: nat, finished: set<nat>)
    requires OpsInv(h, durable, active, nextOp, finished)
    ensures OpsInv(h, durable, active + [Op(nextOp, {})], nextOp + 1, finished)
  {
    var active' := active + [Op(nextOp, {})];
    forall i | 0 <= i < |h| && IsActive(active, h[i].op) ensures IsActive(active', h[i].op) {
      var j :| 0 <= j < |active| && active[j].id == h[i].op;
      assert active'[j].id == h[i].op;
    }
  }

  lemma BeginOpKeeps(s: State, t: State)
    requires Inv(s) && Next(s, BeginOp) == Some(t)
    ensures Inv(t)
  {
    hide Represents, OpsInv, Shows, Head, GoodHead, ApplyAll;
    BeginOpOps(s.history, s.durable, s.active, s.nextOp, s.finished);
  }

  lemma EndOpOps(h: seq<Write>, durable: nat, active: seq<Op>, nextOp: nat, finished: set<nat>, k: nat)
    requires OpsInv(h, durable, active, nextOp, finished) && k < |active|
    ensures OpsInv(h, durable, active[..k] + active[k + 1..], nextOp, finished + {active[k].id})
  {
    var rest := active[..k] + active[k + 1..];
    forall i | 0 <= i < |h| && h[i].op !in finished && h[i].op != active[k].id
      ensures IsActive(rest, h[i].op)
    {
      var j :| 0 <= j < |active| && active[j].id == h[i].op;
      assert rest[if j < k then j else j - 1].id == h[i].op;
    }
  }

  lemma EndOpKeeps(s: State, k: nat, t: State)
    requires Inv(s) && Next(s, EndOp(k)) == Some(t)
    ensures Inv(t)
  {
    hide Represents, OpsInv, Shows, Copied, Head, GoodHead, ApplyAll;
    EndOpOps(s.history, s.durable, s.active, s.nextOp, s.finished, k);
    NothingCopied(s);
  }

  lemma NothingCopied(s: State)
    requires Inv(s)
    ensures Copied(s.layout, s.disk, s.cache, s.lh, 0)
  {
    hide OpsInv, Shows, Installed, Head, ApplyAll;
  }

  /** With nothing pinned, the disk is what the kernel sees. */
  lemma NothingPinned(l: Layout, disk: Disk, cache: map<nat, Block>, d: Disk, stable: Disk)
    requires Shows(l, disk, cache, [], d) && Holds(l, disk, [], stable)
    ensures Holds(l, disk, [], d)
  {
    assert forall b: nat :: l.Home(b) ==> View(disk, cache, b) == disk[b];
  }

  lemma CommitOps(h: seq<Write>, durable: nat, nextOp: nat, finished: set<nat>)
    requires OpsInv(h, durable, [], nextOp, finished)
    ensures OpsInv(h, |h|, [], nextOp, finished)
  {
  }

  lemma CommitNothingKeeps(s: State, t: State)
    requires Inv(s) && Next(s, CommitNothing) == Some(t)
    ensures Inv(t)
  {
    hide OpsInv, Holds, Shows, GoodHead, ApplyAll, Head;
    assert s.history[..|s.history|] == s.history;
    CommitOps(s.history, s.durable, s.nextOp, s.finished);
    NothingPinned(s.layout, s.disk, s.cache, s.Current(), s.Stable());
  }

  lemma CopyOne(l: Layout, disk: Disk, cache: map<nat, Block>, lh: seq<nat>, k: nat, d: Disk, stable: Disk)
    requires l.Valid() && GoodHead(l, lh) && Holds(l, disk, [], stable) && k < |lh|
    requires Shows(l, disk, cache, lh, d) && Copied(l, disk, cache, lh, k)
    ensures var disk' := disk[l.start + 1 + k := View(disk, cache, lh[k])];
      Holds(l, disk', [], stable) && Shows(l, disk', cache, lh, d) && Copied(l, disk', cache, lh, k + 1)
  {
    var disk' := disk[l.start + 1 + k := View(disk, cache, lh[k])];
    forall b: nat | l.Home(b) ensures View(disk', cache, b) == d[b] {
      assert View(disk', cache, b) == View(disk, cache, b);
    }
  }

  lemma BlockCopied(s: State, k: nat, t: State)
    requires Inv(s) && s.phase == Logging(k) && k < |s.lh| && TailFits(s, k)
    requires t == s.(disk := s.disk[s.layout.start + 1 + k := View(s.disk, s.cache, s.lh[k])],
                     phase := Logging(k + 1))
    ensures Inv(t)
  {
    hide OpsInv, Holds, Shows, Copied, Head, GoodHead, ApplyAll;
    LayoutValid(s);
    CopyOne(s.layout, s.disk, s.cache, s.lh, k, s.Current(), s.Stable());
  }

  lemma LayoutValid(s: State)
    requires Inv(s)
    ensures s.layout.Valid() && |s.disk| == s.layout.nblocks
  {
    hide OpsInv, Shows, Installed, Copied, Head, ApplyAll;
  }

  lemma WriteLogBlockKeeps(s: State, t: State)
    requires Inv(s) && Next(s, WriteLogBlock) == Some(t)
    ensures Inv(t)
  {
    hide Inv;
    WriteLogBlockNext(s, s.phase.tail);
    BlockCopied(s, s.phase.tail, t);
  }

  /** Every block that is not pinned is on disk already. */
  lemma CopiedHome(l: Layout, disk: Disk, cache: map<nat, Block>, lh: seq<nat>, d: Disk, head: Block)
    requires l.Valid() && Shows(l, disk, cache, lh, d)
    ensures |d| == |disk| == l.nblocks && l.start < |disk|
    ensures forall b: nat :: l.Home(b) && b !in lh ==> disk[l.start := head][b] == d[b]
  {
    forall b: nat | l.Home(b) && b !in lh ensures disk[l.start := head][b] == d[b] {
      assert View(disk, cache, b) == disk[b];
    }
  }

  /** Every pinned block is in the log. */
  lemma CopiedLog(l: Layout, disk: Disk, cache: map<nat, Block>, lh: seq<nat>, d: Disk, head: Block)
    requires l.Valid() && GoodHead(l, lh) && Shows(l, disk, cache, lh, d) && Copied(l, disk, cache, lh, |lh|)
    ensures |d| == l.nblocks && l.start + |lh| < |disk|
    ensures forall i :: 0 <= i < |lh| ==> disk[l.start := head][l.start + 1 + i] == d[lh[i]]
  {
    forall i | 0 <= i < |lh| ensures disk[l.start := head][l.start + 1 + i] == d[lh[i]] {
      assert View(disk, cache, lh[i]) == d[lh[i]];
    }
  }

  lemma CopiedHolds(l: Layout, disk: Disk, cache: map<nat, Block>, lh: seq<nat>, d: Disk, head: Block)
    requires l.Valid() && GoodHead(l, lh)
    requires Shows(l, disk, cache, lh, d) && Copied(l, disk, cache, lh, |lh|)
    ensures Holds(l, disk[l.start := head], lh, d)
    ensures Installed(l, disk[l.start := head], lh, 0, d)
  {
    hide Shows, Copied, GoodHead;
    CopiedHome(l, disk, cache, lh, d, head);
    CopiedLog(l, disk, cache, lh, d, head);
    assert lh[0..] == lh;
  }

  lemma HeaderWritten(s: State, head: Block, t: State)
    requires Inv(s) && s.phase == Logging(|s.lh|) && s.lh != [] && Head(head) == s.lh && head.words[0] < WORDS
    requires t == s.(disk := s.disk[s.layout.start := head], phase := Installing(0), durable := |s.history|)
    ensures Inv(t)
  {
    hide OpsInv, Holds, Shows, Copied, Installed, Head, GoodHead, ApplyAll;
    LayoutValid(s);
    assert s.history[..|s.history|] == s.history;
    CommitOps(s.history, s.durable, s.nextOp, s.finished);
    CopiedHolds(s.layout, s.disk, s.cache, s.lh, s.Current(), head);
    assert s.lh[0..] == s.lh;
    CachedListed(s.layout, s.disk, s.cache, s.lh, s.Current());
  }

  lemma CachedListed(l: Layout, disk: Disk, cache: map<nat, Block>, lh: seq<nat>, d: Disk)
    requires Shows(l, disk, cache, lh, d)
    ensures forall b :: b in cache ==> b in lh
  {
  }

  lemma WriteHeaderStep(s: State, t: State) returns (head: Block)
    requires Next(s, WriteHeader) == Some(t)
    ensures s.layout.start < |s.disk| && Head(head) == s.lh && head.words[0] < WORDS
    ensures s.phase == Logging(|s.lh|) && s.lh != []
    ensures t == s.(disk := s.disk[s.layout.start := head], phase := Installing(0), durable := |s.history|)
  {
    HeadOfHeaded(s.disk[s.layout.start], s.lh);
    return Headed(s.disk[s.layout.start], s.lh);
  }

  lemma WriteHeaderKeeps(s: State, t: State)
    requires Inv(s) && Next(s, WriteHeader) == Some(t)
    ensures Inv(t)
  {
    hide Inv, Next;
    var head := WriteHeaderStep(s, t);
    HeaderWritten(s, head, t);
  }

  lemma InstallOne(l: Layout, disk: Disk, lh: seq<nat>, k: nat, d: Disk)
    requires Holds(l, disk, lh, d) && Installed(l, disk, lh, k, d) && k < |lh|
    ensures Holds(l, disk[lh[k] := disk[l.start + 1 + k]], lh, d)
    ensures Installed(l, disk[lh[k] := disk[l.start + 1 + k]], lh, k + 1, d)
  {
    assert lh[k..] == [lh[k]] + lh[k + 1..];
  }

  lemma BlockInstalled(s: State, k: nat, t: State)
    requires Inv(s) && s.phase == Installing(k) && k < |s.lh|
    requires t == s.(disk := s.disk[s.lh[k] := s.disk[s.layout.start + 1 + k]],
                     cache := s.cache - {s.lh[k]}, phase := Installing(k + 1))
    ensures Inv(t)
  {
    hide OpsInv, Holds, Head, ApplyAll;
    InstallOne(s.layout, s.disk, s.lh, k, s.Stable());
    assert s.lh[k..] == [s.lh[k]] + s.lh[k + 1..];
  }

  lemma InstallBlockKeeps(s: State, t: State)
    requires Inv(s) && Next(s, InstallBlock) == Some(t)
    ensures Inv(t)
  {
    hide Inv;
    InstallBlockNext(s, s.phase.tail);
    BlockInstalled(s, s.phase.tail, t);
  }

  lemma InstalledHolds(l: Layout, disk: Disk, lh: seq<nat>, d: Disk, head: Block)
    requires Holds(l, disk, lh, d) && Installed(l, disk, lh, |lh|, d)
    ensures Holds(l, disk[l.start := head], [], d)
    ensures Shows(l, disk[l.start := head], map[], [], d)
  {
  }

  lemma HeaderCleared(s: State, head: Block, t: State)
    requires Inv(s) && s.phase == Installing(|s.lh|) && Head(head) == [] && head.words[0] < WORDS
    requires t == s.(disk := s.disk[s.layout.start := head], lh := [], phase := Running)
    ensures Inv(t)
  {
    hide OpsInv, Holds, Shows, Installed, Head, ApplyAll;
    LayoutValid(s);
    assert s.history[..s.durable] == s.history;
    InstalledHolds(s.layout, s.disk, s.lh, s.Stable(), head);
    assert s.cache == map[];
  }

  lemma ClearHeaderStep(s: State, t: State) returns (head: Block)
    requires Next(s, ClearHeader) == Some(t)
    ensures s.layout.start < |s.disk| && Head(head) == [] && head.words[0] < WORDS
    ensures s.phase == Installing(|s.lh|)
    ensures t == s.(disk := s.disk[s.layout.start := head], lh := [], phase := Running)
  {
    HeadOfHeaded(s.disk[s.layout.start], []);
    return Headed(s.disk[s.layout.start], []);
  }

  lemma ClearHeaderKeeps(s: State, t: State)
    requires Inv(s) && Next(s, ClearHeader) == Some(t)
    ensures Inv(t)
  {
    hide Inv, Next;
    var head := ClearHeaderStep(s, t);
    HeaderCleared(s, head, t);
  }

  lemma CrashOps(h: seq<Write>, durable: nat, active: seq<Op>, nextOp: nat, finished: set<nat>)
    requires OpsInv(h, durable, active, nextOp, finished)
    ensures |Prefix(h, durable)| == durable && Prefix(Prefix(h, durable), durable) == Prefix(h, durable)
    ensures OpsInv(Prefix(h, durable), durable, [], nextOp, finished)
  {
  }

  lemma CrashKeeps(s: State, t: State)
    requires Inv(s) && Next(s, Crash) == Some(t)
    ensures Inv(t)
  {
    CrashOps(s.history, s.durable, s.active, s.nextOp, s.finished);
    hide OpsInv, Represents, Head, Prefix, ApplyAll;
  }

  lemma ReadHeadKeeps(s: State, t: State)
    requires Inv(s) && Next(s, ReadHead) == Some(t)
    ensures Inv(t)
  {
    hide OpsInv, Holds, Installed, Head, GoodHead, ApplyAll;
    NothingInstalled(s.layout, s.disk, t.lh, s.Stable());
  }

  lemma NothingInstalled(l: Layout, disk: Disk, lh: seq<nat>, d: Disk)
    requires Holds(l, disk, lh, d)
    ensures GoodHead(l, lh) && Installed(l, disk, lh, 0, d)
  {
    assert lh[0..] == lh;
  }

  lemma StepKeeps(s: State, e: Event, t: State)
    requires Inv(s) && Next(s, e) == Some(t)
    ensures Inv(t)
  {
    hide Inv, Next;
    match e
    case BeginOp => BeginOpKeeps(s, t);
    case LogWrite(k, b, data) => LogWriteKeeps(s, k, b, data, t);
    case EndOp(k) => EndOpKeeps(s, k, t);
    case CommitNothing => CommitNothingKeeps(s, t);
    case WriteLogBlock => WriteLogBlockKeeps(s, t);
    case WriteHeader => WriteHeaderKeeps(s, t);
    case InstallBlock => InstallBlockKeeps(s, t);
    case ClearHeader => ClearHeaderKeeps(s, t);
    case Crash => CrashKeeps(s, t);
    case ReadHead => ReadHeadKeeps(s, t);
  }

  // ---- which step comes next ----

  lemma WriteLogBlockNext(s: State, k: nat)
    requires Inv(s) && s.phase == Logging(k) && k < |s.lh|
    ensures TailFits(s, k)
    ensures Next(s, WriteLogBlock)
         == Some(s.(disk := s.disk[s.layout.start + 1 + k := View(s.disk, s.cache, s.lh[k])],
                    phase := Logging(k + 1)))
  {
    hide OpsInv, Shows, Copied, Head, ApplyAll;
  }

  /** A log block is never pinned, so install_trans reads it from the disk. */
  lemma LogBlockNotCached(s: State, k: nat)
    requires Inv(s) && s.phase == Installing(k) && k < |s.lh|
    ensures TailFits(s, k) && s.layout.start + 1 + k !in s.cache
  {
    hide OpsInv, Installed, Head, ApplyAll;
  }

  lemma InstallBlockNext(s: State, k: nat)
    requires Inv(s) && s.phase == Installing(k) && k < |s.lh|
    ensures TailFits(s, k) && s.layout.start + 1 + k !in s.cache
    ensures Next(s, InstallBlock)
         == Some(s.(disk := s.disk[s.lh[k] := s.disk[s.layout.start + 1 + k]],
                    cache := s.cache - {s.lh[k]}, phase := Installing(k + 1)))
  {
    hide Inv;
    LogBlockNotCached(s, k);
  }

  lemma ReadHeadNext(s: State)
    requires Inv(s) && s.phase.Booting?
    ensures s.layout.start < |s.disk| && |Head(s.disk[s.layout.start])| <= LOGSIZE
    ensures s.disk[s.layout.start].words[0] < WORDS
    ensures Next(s, ReadHead) == Some(s.(lh := Head(s.disk[s.layout.start]), phase := Installing(0)))
  {
    hide OpsInv, Head, ApplyAll;
  }

  lemma HeaderNext(s: State)
    requires Inv(s)
    ensures s.layout.start < |s.disk| && HeadFits(s.lh)
    ensures s.phase == Logging(|s.lh|) && s.lh != [] ==>
      Next(s, WriteHeader)
      == Some(s.(disk := s.disk[s.layout.start := Headed(s.disk[s.layout.start], s.lh)],
                 phase := Installing(0), durable := |s.history|))
    ensures s.phase == Installing(|s.lh|) ==>
      Next(s, ClearHeader)
      == Some(s.(disk := s.disk[s.layout.start := Headed(s.disk[s.layout.start], [])], lh := [], phase := Running))
  {
    hide Inv, Headed;
    ListFits(s);
  }

  /** The header block has room for the list. */
  lemma ListFits(s: State)
    requires Inv(s)
    ensures s.layout.start < |s.disk| && HeadFits(s.lh)
  {
    hide OpsInv, Shows, Copied, Installed, Head;
  }

  lemma InitInv(s: State)
    requires Init(s)
    ensures Inv(s)
  {
  }

  // ---- whole runs ----

  lemma {:induction false} RunKeeps(s: State, es: seq<Event>, t: State)
    requires Inv(s) && Run(s, es, t)
    ensures Inv(t)
    decreases |es|
  {
    hide Inv, Next;
    if es != [] {
      StepKeeps(s, es[0], Next(s, es[0]).value);
      RunKeeps(Next(s, es[0]).value, es[1..], t);
    }
  }

  /**
   * Whatever operations interleave and wherever crashes fall, in commit or in recovery itself, the
   * disk stands for exactly the first durable writes, which are all the writes of some finished
   * operations and no write of any other.
   */
  lemma {:induction false} CrashAtomicity(s: State, es: seq<Event>, t: State)
    requires Init(s) && Run(s, es, t)
    ensures Represents(t.layout, t.disk, t.Stable())
    ensures OpsAtomic(t.history, t.durable, t.finished)
    ensures t.base == s.base
  {
    RunKeeps(s, es, t);
    BaseFixed(s, es, t);
  }

  lemma {:induction false} BaseFixed(s: State, es: seq<Event>, t: State)
    requires Run(s, es, t)
    ensures t.base == s.base && t.layout == s.layout
    decreases |es|
  {
    if es != [] { BaseFixed(Next(s, es[0]).value, es[1..], t); }
  }

  /** When no operation is active and no commit runs, all the home blocks are up to date on disk. */
  lemma IdleDiskIsCurrent(s: State, es: seq<Event>, t: State)
    requires Init(s) && Run(s, es, t) && t.phase.Running? && t.active == []
    ensures t.durable == |t.history|
    ensures Agrees(t.layout, t.disk, ApplyAll(s.base, t.history))
  {
    BaseFixed(s, es, t);
    RunKeeps(s, es, t);
    assert t.history[..t.durable] == t.history;
  }

  lemma StepKeepsDurable(s: State, e: Event, t: State)
    requires s.durable <= |s.history| && Next(s, e) == Some(t)
    ensures Prefix(s.history, s.durable) <= Prefix(t.history, t.durable)
  {
    if e.LogWrite? || e.Crash? {
      assert t.history[..t.durable] == s.history[..s.durable];
    }
  }

  /** Nothing durable is ever lost or reordered, across any number of crashes. */
  lemma {:induction false} Durability(s: State, es: seq<Event>, t: State)
    requires Inv(s) && Run(s, es, t)
    ensures Prefix(s.history, s.durable) <= Prefix(t.history, t.durable)
    decreases |es|
  {
    if es != [] {
      var u := Next(s, es[0]).value;
      StepKeeps(s, es[0], u);
      StepKeepsDurable(s, es[0], u);
      Durability(u, es[1..], t);
    }
  }

  // ---- reserving log space ----

  /** The blocks the active operations may still add within their quotas. */
  function Unused(active: seq<Op>): int {
    if active == [] then 0
    else Unused(active[..|active| - 1]) + MAXOPBLOCKS - |active[|active| - 1].blocks|
  }

  /** No operation logs more than MAXOPBLOCKS distinct blocks. */
  ghost predicate RespectsQuota(s: State, e: Event) {
    e.LogWrite? && e.k < |s.active| ==> |s.active[e.k].blocks + {e.blockno}| <= MAXOPBLOCKS
  }

  ghost predicate QuotaRun(s: State, es: seq<Event>, t: State)
    decreases |es|
  {
    if es == [] then s == t
    else RespectsQuota(s, es[0]) && Next(s, es[0]).Some? && QuotaRun(Next(s, es[0]).value, es[1..], t)
  }

  /** Listed blocks plus unused quotas fit in the log. */
  ghost predicate Reserved(s: State) {
    && (s.phase.Running? ==> |s.lh| + Unused(s.active) <= LOGSIZE)
    && (!s.phase.Running? ==> s.active == [])
    && forall k :: 0 <= k < |s.active| ==>
         |s.active[k].blocks| <= MAXOPBLOCKS && forall b :: b in s.active[k].blocks ==> b in s.lh
  }

  lemma {:induction false} UnusedUpdate(active: seq<Op>, k: nat, op: Op)
    requires k < |active|
    ensures Unused(active[k := op]) == Unused(active) + |active[k].blocks| - |op.blocks|
  {
    var n := |active| - 1;
    if k == n {
      assert active[k := op][..n] == active[..n];
    } else {
      assert active[k := op][..n] == active[..n][k := op];
      UnusedUpdate(active[..n], k, op);
    }
  }

  lemma {:induction false} UnusedRemove(active: seq<Op>, k: nat)
    requires k < |active|
    ensures Unused(active[..k] + active[k + 1..]) == Unused(active) - MAXOPBLOCKS + |active[k].blocks|
  {
    var n := |active| - 1;
    if k == n {
      assert active[..k] + active[k + 1..] == active[..n];
    } else {
      var rest := active[..k] + active[k + 1..];
      assert rest[..n - 1] == active[..n][..k] + active[..n][k + 1..];
      UnusedRemove(active[..n], k);
    }
  }

  lemma {:induction false} UnusedBound(active: seq<Op>)
    ensures Unused(active) <= |active| * MAXOPBLOCKS
  {
    if active != [] { UnusedBound(active[..|active| - 1]); }
  }

  lemma LogWriteReserved(s: State, k: nat, b: nat, data: Block, t: State)
    requires Reserved(s) && Next(s, LogWrite(k, b, data)) == Some(t) && RespectsQuota(s, LogWrite(k, b, data))
    ensures Reserved(t)
  {
    var op := s.active[k].(blocks := s.active[k].blocks + {b});
    UnusedUpdate(s.active, k, op);
    if b in s.active[k].blocks {
      assert op.blocks == s.active[k].blocks;
    }
  }

  lemma EndOpReserved(s: State, k: nat, t: State)
    requires Reserved(s) && Next(s, EndOp(k)) == Some(t)
    ensures Reserved(t)
  {
    UnusedRemove(s.active, k);
    forall j | 0 <= j < |t.active|
      ensures |t.active[j].blocks| <= MAXOPBLOCKS && forall b :: b in t.active[j].blocks ==> b in t.lh
    {
      assert t.active[j] == s.active[if j < k then j else j + 1];
    }
  }

  lemma BeginOpReserved(s: State, t: State)
    requires Reserved(s) && Next(s, BeginOp) == Some(t)
    ensures Reserved(t)
  {
    assert t.active[..|t.active| - 1] == s.active;
    UnusedBound(s.active);
  }

  lemma StepReserved(s: State, e: Event, t: State)
    requires Reserved(s) && Next(s, e) == Some(t) && RespectsQuota(s, e)
    ensures Reserved(t) && t.layout == s.layout
  {
    match e
    case BeginOp => BeginOpReserved(s, t);
    case LogWrite(k, b, data) => LogWriteReserved(s, k, b, data, t);
    case EndOp(k) => EndOpReserved(s, k, t);
    case _ =>
  }

  lemma {:induction false} RunReserved(s: State, es: seq<Event>, t: State)
    requires Reserved(s) && QuotaRun(s, es, t)
    ensures Reserved(t) && t.layout == s.layout
    decreases |es|
  {
    if es != [] {
      StepReserved(s, es[0], Next(s, es[0]).value);
      RunReserved(Next(s, es[0]).value, es[1..], t);
    }
  }

  lemma {:induction false} UnusedAt(active: seq<Op>, k: nat)
    requires k < |active| && |active[k].blocks| < MAXOPBLOCKS
    requires forall j :: 0 <= j < |active| ==> |active[j].blocks| <= MAXOPBLOCKS
    ensures 0 < Unused(active)
  {
    var n := |active| - 1;
    if k < n { UnusedAt(active[..n], k); } else { UnusedNonNegative(active[..n]); }
  }

  lemma {:induction false} UnusedNonNegative(active: seq<Op>)
    requires forall j :: 0 <= j < |active| ==> |active[j].blocks| <= MAXOPBLOCKS
    ensures 0 <= Unused(active)
  {
    if active != [] { UnusedNonNegative(active[..|active| - 1]); }
  }

  /** On every run within quotas, an operation with quota left finds room in the log. */
  ghost predicate NeverPanics(s: State) {
    forall es, t, k :: QuotaRun(s, es, t) && HasQuota(t, k) ==> RoomForWrite(t)
  }

  ghost predicate HasQuota(s: State, k: nat) {
    s.phase.Running? && k < |s.active| && |s.active[k].blocks| < MAXOPBLOCKS
  }

  lemma {:induction false} QuotaRunSnoc(s: State, es: seq<Event>, t: State, e: Event, u: State)
    requires QuotaRun(s, es, t) && RespectsQuota(t, e) && Next(t, e) == Some(u)
    ensures QuotaRun(s, es + [e], u)
    decreases |es|
  {
    if es == [] {
      assert (es + [e])[1..] == [];
    } else {
      assert (es + [e])[1..] == es[1..] + [e];
      QuotaRunSnoc(Next(s, es[0]).value, es[1..], t, e, u);
    }
  }

  /** Three operations have logged the first j of the blocks hs, ten each. */
  ghost predicate Filled(t: State, hs: seq<nat>, j: nat) {
    && j <= |hs| && t.phase.Running? && t.lh == hs[..j] && |t.active| == 3
    && forall i :: 0 <= i < 3 ==>
         && |t.active[i].blocks| == (if j < 10 * i then 0 else if j < 10 * i + 10 then j - 10 * i else 10)
         && forall b :: b in t.active[i].blocks ==> b in t.lh
  }

  lemma Start(s: State) returns (es: seq<Event>, t: State)
    requires Init(s)
    ensures QuotaRun(s, es, t) && Filled(t, [], 0) && t.layout == s.layout
  {
    var s1 := Next(s, ReadHead).value;
    var s2 := Next(s1, ClearHeader).value;
    var s3 := Next(s2, BeginOp).value;
    var s4 := Next(s3, BeginOp).value;
    t := Next(s4, BeginOp).value;
    es := [];
    QuotaRunSnoc(s, es, s, ReadHead, s1); es := es + [ReadHead];
    QuotaRunSnoc(s, es, s1, ClearHeader, s2); es := es + [ClearHeader];
    QuotaRunSnoc(s, es, s2, BeginOp, s3); es := es + [BeginOp];
    QuotaRunSnoc(s, es, s3, BeginOp, s4); es := es + [BeginOp];
    QuotaRunSnoc(s, es, s4, BeginOp, t); es := es + [BeginOp];
  }

  lemma FillStep(t: State, hs: seq<nat>, j: nat) returns (e: Event, u: State)
    requires Filled(t, hs, j) && j < |hs| <= LOGSIZE && j < t.layout.size - 1
    requires Distinct(hs) && t.layout.Home(hs[j])
    ensures RespectsQuota(t, e) && Next(t, e) == Some(u)
    ensures Filled(u, hs, j + 1) && u.layout == t.layout
  {
    var k := j / 10;
    e := LogWrite(k, hs[j], ZeroBlock());
    u := Next(t, e).value;
    assert hs[j] !in t.lh;
    assert hs[..j + 1] == hs[..j] + [hs[j]];
  }

  lemma {:induction false} Fill(s: State, hs: seq<nat>, j: nat) returns (es: seq<Event>, t: State)
    requires Init(s) && j <= |hs| <= LOGSIZE && j <= s.layout.size - 1
    requires Distinct(hs) && forall i :: 0 <= i < |hs| ==> s.layout.Home(hs[i])
    ensures QuotaRun(s, es, t) && Filled(t, hs, j) && t.layout == s.layout
  {
    if j == 0 {
      es, t := Start(s);
      assert hs[..0] == [];
    } else {
      es, t := Fill(s, hs, j - 1);
      var e, u := FillStep(t, hs, j - 1);
      QuotaRunSnoc(s, es, t, e, u);
      es, t := es + [e], u;
    }
  }

  /**
   * The reservation made by begin_op suffices exactly when the log region is larger than LOGSIZE:
   * one of its blocks is the header.  mkfs makes it LOGSIZE blocks, one too few.
   */
  lemma ReservationSufficesIff(s: State, hs: seq<nat>)
    requires Init(s)
    requires |hs| == LOGSIZE && Distinct(hs) && forall i :: 0 <= i < |hs| ==> s.layout.Home(hs[i])
    ensures NeverPanics(s) <==> s.layout.size > LOGSIZE
  {
    if s.layout.size > LOGSIZE {
      forall es, t, k | QuotaRun(s, es, t) && HasQuota(t, k) ensures RoomForWrite(t) {
        RunReserved(s, es, t);
        UnusedAt(t.active, k);
      }
    } else {
      var j := s.layout.size - 1;
      var es, t := Fill(s, hs, j);
      assert HasQuota(t, j / 10) && !RoomForWrite(t);
    }
  }
}
