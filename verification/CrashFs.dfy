/**
 * The log and the file system together: the transactions of filewrite, run through the log machine, leave a
 * file system in good order whenever a crash falls, with a whole number of them done.
 */
module CrashFs {
  import opened Common
  import opened Blocks
  import opened LogMachine
  import FsModel
  import FsLayout
  import FileCode
  import FsFormat

  // ---- the log and the file system share the disk ----

  /** The log region lies before the inodes, the bitmap and the data. */
  ghost predicate Beside(sb: FsLayout.Super, l: Layout) {
    sb.Valid() && l.Valid() && l.nblocks == sb.size && l.start + l.size <= sb.inodeStart
  }

  /** What a disk mounts as depends on its home blocks alone. */
  lemma HomeDecides(sb: FsLayout.Super, l: Layout, disk: Disk, d: Disk)
    requires Beside(sb, l) && Agrees(l, disk, d) && FsLayout.Mountable(sb, d)
    ensures FsLayout.Mountable(sb, disk)
  {
    var fs, owner :| FsLayout.MountsAs(sb, d, fs, owner);
    HomeMounts(sb, l, disk, d, fs, owner);
  }

  lemma HomeMounts(sb: FsLayout.Super, l: Layout, disk: Disk, d: Disk, fs: FsModel.Fs, owner: map<nat, FsModel.Place>)
    requires Beside(sb, l) && Agrees(l, disk, d) && FsLayout.MountsAs(sb, d, fs, owner)
    ensures FsLayout.MountsAs(sb, disk, fs, owner)
  {
    hide FsModel.Inv;
    assert forall b: nat :: b < sb.size ==> l.Home(sb.BBlock(b));
    assert forall i: nat :: i < sb.ninodes ==> l.Home(sb.IBlock(i));
    assert forall b: nat :: sb.dataStart <= b < sb.size ==> l.Home(b);
    forall b: nat | b < sb.size ensures FsLayout.UsedBit(sb, disk, b) == FsLayout.UsedBit(sb, d, b) {}
    forall i: nat | i < sb.ninodes ensures FsLayout.DiskInode(sb, disk, i) == FsLayout.DiskInode(sb, d, i) {}
  }

  // ---- any run ----

  /** Whenever the last operation ends, the current contents are a file system in good order. */
  ghost predicate GoodCommits(sb: FsLayout.Super, s: State, es: seq<Event>)
    decreases |es|
  {
    && (s.phase.Logging? ==> FsLayout.Mountable(sb, s.Current()))
    && (es != [] && Next(s, es[0]).Some? ==> GoodCommits(sb, Next(s, es[0]).value, es[1..]))
  }

  lemma StableStep(s: State, e: Event, t: State)
    requires s.durable <= |s.history| && Next(s, e) == Some(t)
    ensures t.Stable() == s.Stable() || (s.phase.Logging? && t.Stable() == s.Current())
  {
    if e.LogWrite? || e.Crash? {
      assert t.history[..t.durable] == s.history[..s.durable];
    } else if e.CommitNothing? || e.WriteHeader? {
      assert t.history[..t.durable] == s.history;
    }
  }

  lemma {:induction false} StableGood(sb: FsLayout.Super, s: State, es: seq<Event>, t: State)
    requires Inv(s) && Run(s, es, t) && FsLayout.Mountable(sb, s.Stable()) && GoodCommits(sb, s, es)
    ensures FsLayout.Mountable(sb, t.Stable())
    decreases |es|
  {
    hide Next, Inv, FsLayout.Mountable;
    if es != [] {
      var u := Next(s, es[0]).value;
      StepKeeps(s, es[0], u);
      WithinBase(s);
      StableStep(s, es[0], u);
      StableGood(sb, u, es[1..], t);
    }
  }

  /**
   * Over all interleavings and crashes: if the file system is in order whenever no operation is under way,
   * then what recovery would restore at any time is in order, and so is the disk itself once recovery is done.
   */
  lemma RecoveredFileSystem(sb: FsLayout.Super, s: State, es: seq<Event>, t: State)
    requires Init(s) && Beside(sb, s.layout) && FsLayout.Mountable(sb, s.disk)
    requires Run(s, es, t) && GoodCommits(sb, s, es)
    ensures FsLayout.Mountable(sb, t.Stable())
    ensures t.phase.Running? && t.active == [] ==> FsLayout.Mountable(sb, t.disk)
  {
    InitStable(s);
    BaseFixed(s, es, t);
    StableGood(sb, s, es, t);
    if t.phase.Running? && t.active == [] {
      IdleDiskIsCurrent(s, es, t);
      assert t.history[..t.durable] == t.history;
      HomeDecides(sb, t.layout, t.disk, t.Stable());
    }
  }

  lemma InitStable(s: State)
    requires Init(s)
    ensures Inv(s) && s.Stable() == s.disk
  {
    var es: seq<Event> := [];
    CrashAtomicity(s, es, s);
  }

  // ---- the transactions of one write ----

  /** No operation is under way and the log is empty. */
  ghost predicate Idle(s: State) {
    Inv(s) && s.phase.Running? && s.active == [] && s.lh == []
  }

  lemma IdleStable(s: State)
    requires Idle(s)
    ensures s.Stable() == s.Current() && Agrees(s.layout, s.disk, s.Current()) && s.durable == |s.history|
  {
    assert s.history[..s.durable] == s.history;
  }

  /** A crash now would leave one of these images on the home blocks, once recovered. */
  ghost predicate Recovers(u: State, images: seq<seq<Block>>) {
    Inv(u) && exists j :: 0 <= j < |images| && Agrees(u.layout, u.Stable(), images[j])
  }

  ghost predicate AlwaysRecovers(s: State, es: seq<Event>, images: seq<seq<Block>>)
    decreases |es|
  {
    Recovers(s, images) && (es != [] && Next(s, es[0]).Some? ==> AlwaysRecovers(Next(s, es[0]).value, es[1..], images))
  }

  /** A run on which a crash always leaves one of the images. */
  ghost predicate SafeRun(s: State, es: seq<Event>, t: State, images: seq<seq<Block>>) {
    QuotaRun(s, es, t) && AlwaysRecovers(s, es, images)
  }

  lemma SafeNothing(s: State, images: seq<seq<Block>>)
    requires Recovers(s, images)
    ensures SafeRun(s, [], s, images)
  {
  }

  lemma SafeStep(s: State, e: Event, u: State, es: seq<Event>, t: State, images: seq<seq<Block>>)
    requires Recovers(s, images) && RespectsQuota(s, e) && Next(s, e) == Some(u) && SafeRun(u, es, t, images)
    ensures SafeRun(s, [e] + es, t, images)
  {
    hide Next, Recovers, RespectsQuota;
    assert ([e] + es)[1..] == es;
  }

  lemma {:induction false} SafeJoin(s: State, es: seq<Event>, u: State, fs: seq<Event>, t: State,
                                    images: seq<seq<Block>>)
    requires SafeRun(s, es, u, images) && SafeRun(u, fs, t, images)
    ensures SafeRun(s, es + fs, t, images)
    decreases |es|
  {
    hide Next, Recovers, RespectsQuota;
    if es == [] {
      assert es + fs == fs;
    } else {
      SafeJoin(Next(s, es[0]).value, es[1..], u, fs, t, images);
      assert (es + fs)[1..] == es[1..] + fs;
    }
  }

  lemma {:induction false} SafeMore(s: State, es: seq<Event>, t: State, images: seq<seq<Block>>, more: seq<seq<Block>>)
    requires SafeRun(s, es, t, images) && forall j :: 0 <= j < |images| ==> images[j] in more
    ensures SafeRun(s, es, t, more)
    decreases |es|
  {
    hide Next, RespectsQuota, Inv;
    if es != [] { SafeMore(Next(s, es[0]).value, es[1..], t, images, more); }
  }

  /** The step keeps the invariant and what a crash would leave. */
  lemma KeepsImage(s: State, e: Event, t: State, images: seq<seq<Block>>)
    requires Recovers(s, images) && Next(s, e) == Some(t) && !s.phase.Logging?
    ensures Recovers(t, images)
  {
    hide Next, Inv;
    StepKeeps(s, e, t);
    WithinBase(s);
    StableStep(s, e, t);
    LayoutKept(s, e, t);
  }

  lemma LayoutKept(s: State, e: Event, t: State)
    requires Next(s, e) == Some(t)
    ensures t.layout == s.layout && t.base == s.base
  {
  }

  // ---- the writes of a transaction ----

  /** The writes are of blocks outside the log, all in bs. */
  ghost predicate WritesIn(l: Layout, ws: seq<FsLayout.BlockWrite>, bs: set<nat>) {
    forall i :: 0 <= i < |ws| ==> l.Home(ws[i].b) && ws[i].b in bs
  }

  /** One operation is active, and it has logged only blocks of bs. */
  ghost predicate Logging1(s: State, bs: set<nat>) {
    && s.phase.Running? && |s.active| == 1 && s.active[0].blocks <= bs && |bs| <= MAXOPBLOCKS
    && s.layout.size > MAXOPBLOCKS + 1 && forall b :: b in s.lh ==> b in bs
  }

  /** Distinct blocks of a set are no more than the set has. */
  lemma {:induction false} FewDistinct(lh: seq<nat>, bs: set<nat>)
    requires Distinct(lh) && forall b :: b in lh ==> b in bs
    ensures |lh| <= |bs|
    decreases |lh|
  {
    if lh != [] {
      var n := |lh| - 1;
      forall b | b in lh[..n] ensures b in bs - {lh[n]} {}
      FewDistinct(lh[..n], bs - {lh[n]});
    }
  }

  /** Every log_write of the transaction, in order; a block may be written many times. */
  lemma {:induction false} LogAll(s: State, store: seq<Block>, ws: seq<FsLayout.BlockWrite>, bs: set<nat>,
                                  images: seq<seq<Block>>)
    returns (es: seq<Event>, t: State)
    requires Recovers(s, images) && Logging1(s, bs) && WritesIn(s.layout, ws, bs)
    requires Agrees(s.layout, s.Current(), store)
    ensures SafeRun(s, es, t, images) && Recovers(t, images) && t.layout == s.layout && Logging1(t, bs)
    ensures Agrees(t.layout, t.Current(), FsLayout.Written(store, ws))
    decreases |ws|
  {
    hide Recovers, Agrees, Next, Inv;
    if ws == [] {
      es, t := [], s;
      SafeNothing(s, images);
    } else {
      var n, w := |ws| - 1, ws[|ws| - 1];
      var es1, u := LogAll(s, store, ws[..n], bs, images);
      var e := LogWrite(0, w.b, w.data);
      t := LogOne(u, w.b, w.data, FsLayout.Written(store, ws[..n]), bs, images);
      SafeNothing(t, images);
      SafeStep(u, e, t, [], t, images);
      SafeJoin(s, es1, u, [e] + [], t, images);
      es := es1 + ([e] + []);
    }
  }

  lemma RoomIn(s: State, bs: set<nat>)
    requires Inv(s) && Logging1(s, bs)
    ensures RoomForWrite(s)
  {
    FewDistinct(s.lh, bs);
  }

  lemma Smaller(x: set<nat>, y: set<nat>)
    requires x <= y
    ensures |x| <= |y|
  {
    assert y == x + (y - x);
  }

  lemma LogOne(s: State, b: nat, data: Block, store: seq<Block>, bs: set<nat>,
               images: seq<seq<Block>>) returns (u: State)
    requires Recovers(s, images) && Logging1(s, bs) && s.layout.Home(b) && b in bs
    requires Agrees(s.layout, s.Current(), store)
    ensures b < |store| && Next(s, LogWrite(0, b, data)) == Some(u) && RespectsQuota(s, LogWrite(0, b, data))
    ensures Recovers(u, images) && u.layout == s.layout && Logging1(u, bs)
    ensures Agrees(u.layout, u.Current(), store[b := data])
  {
    hide Inv, Agrees;
    RoomIn(s, bs);
    u := Next(s, LogWrite(0, b, data)).value;
    KeepsImage(s, LogWrite(0, b, data), u, images);
    Smaller(s.active[0].blocks + {b}, bs);
    WithinBase(s);
    ApplyAllSnoc(s.base, s.history, Write(s.active[0].id, b, data));
    AgreesUpdate(s.layout, s.Current(), store, b, data);
  }

  lemma AgreesUpdate(l: Layout, d: Disk, store: seq<Block>, b: nat, data: Block)
    requires Agrees(l, d, store) && l.Home(b)
    ensures b < |d| && b < |store| && Agrees(l, d[b := data], store[b := data])
  {
  }

  // ---- committing ----

  lemma {:induction false} CopyRest(s: State, k: nat, images: seq<seq<Block>>) returns (es: seq<Event>, t: State)
    requires Recovers(s, images) && s.phase == Logging(k) && k <= |s.lh|
    ensures SafeRun(s, es, t, images) && Recovers(t, images)
    ensures t == s.(disk := t.disk, phase := Logging(|s.lh|))
    decreases |s.lh| - k
  {
    hide Next, Inv;
    if k == |s.lh| {
      es, t := [], s;
      SafeNothing(s, images);
    } else {
      WriteLogBlockNext(s, k);
      var u := Next(s, WriteLogBlock).value;
      StepKeeps(s, WriteLogBlock, u);
      assert u.Stable() == s.Stable() && u.layout == s.layout;
      var es';
      es', t := CopyRest(u, k + 1, images);
      es := [WriteLogBlock] + es';
      SafeStep(s, WriteLogBlock, u, es', t, images);
    }
  }

  lemma {:induction false} InstallRest(s: State, k: nat, images: seq<seq<Block>>) returns (es: seq<Event>, t: State)
    requires Recovers(s, images) && s.phase == Installing(k) && k <= |s.lh|
    ensures SafeRun(s, es, t, images) && Recovers(t, images)
    ensures t == s.(disk := t.disk, cache := t.cache, phase := Installing(|s.lh|))
    decreases |s.lh| - k
  {
    hide Next, Inv;
    if k == |s.lh| {
      es, t := [], s;
      SafeNothing(s, images);
    } else {
      InstallBlockNext(s, k);
      var u := Next(s, InstallBlock).value;
      KeepsImage(s, InstallBlock, u, images);
      var es';
      es', t := InstallRest(u, k + 1, images);
      es := [InstallBlock] + es';
      SafeStep(s, InstallBlock, u, es', t, images);
    }
  }

  /** From the first block of install_trans to the cleared header. */
  lemma Install(s: State, images: seq<seq<Block>>) returns (es: seq<Event>, t: State)
    requires Recovers(s, images) && s.phase == Installing(0)
    ensures SafeRun(s, es, t, images) && Idle(t) && t.layout == s.layout && t.Current() == s.Current()
  {
    hide Next, Inv;
    var es1, u := InstallRest(s, 0, images);
    HeaderNext(u);
    t := Next(u, ClearHeader).value;
    KeepsImage(u, ClearHeader, t, images);
    InstallingActive(u);
    SafeNothing(t, images);
    SafeStep(u, ClearHeader, t, [], t, images);
    SafeJoin(s, es1, u, [ClearHeader] + [], t, images);
    es := es1 + ([ClearHeader] + []);
  }

  lemma InstallingActive(s: State)
    requires Inv(s) && s.phase.Installing?
    ensures s.active == []
  {
  }

  /** The commit point: what is current becomes durable. */
  lemma WriteTheHeader(u: State, images: seq<seq<Block>>) returns (v: State)
    requires Inv(u) && u.phase == Logging(|u.lh|) && u.lh != []
    requires exists j :: 0 <= j < |images| && Agrees(u.layout, u.Current(), images[j])
    ensures Next(u, WriteHeader) == Some(v) && RespectsQuota(u, WriteHeader) && Recovers(v, images)
    ensures v.phase == Installing(0) && v.layout == u.layout && v.Current() == u.Current()
  {
    hide Next, Inv;
    HeaderNext(u);
    v := Next(u, WriteHeader).value;
    StepKeeps(u, WriteHeader, v);
    assert v.history[..v.durable] == v.history;
  }

  /** The commit of a transaction, one way or the other. */
  lemma CommitAll(s: State, images: seq<seq<Block>>) returns (es: seq<Event>, t: State)
    requires Recovers(s, images) && s.phase == Logging(0)
    requires exists j :: 0 <= j < |images| && Agrees(s.layout, s.Current(), images[j])
    ensures SafeRun(s, es, t, images) && Idle(t) && t.layout == s.layout && t.Current() == s.Current()
  {
    if s.lh == [] {
      es, t := CommitEmpty(s, images);
    } else {
      hide Next, Inv, Agrees, AlwaysRecovers, QuotaRun, RespectsQuota, Recovers;
      var es1, u := CopyRest(s, 0, images);
      var v := WriteTheHeader(u, images);
      var es2;
      es2, t := Install(v, images);
      SafeStep(u, WriteHeader, v, es2, t, images);
      SafeJoin(s, es1, u, [WriteHeader] + es2, t, images);
      es := es1 + ([WriteHeader] + es2);
    }
  }

  lemma CommitEmpty(s: State, images: seq<seq<Block>>) returns (es: seq<Event>, t: State)
    requires Recovers(s, images) && s.phase == Logging(0) && s.lh == []
    requires exists j :: 0 <= j < |images| && Agrees(s.layout, s.Current(), images[j])
    ensures SafeRun(s, es, t, images) && Idle(t) && t.layout == s.layout && t.Current() == s.Current()
  {
    t := Next(s, CommitNothing).value;
    StepKeeps(s, CommitNothing, t);
    LoggingActive(s);
    hide Inv, Agrees;
    assert t.history[..t.durable] == t.history;
    SafeNothing(t, images);
    SafeStep(s, CommitNothing, t, [], t, images);
    es := [CommitNothing] + [];
  }

  lemma LoggingActive(s: State)
    requires Inv(s) && s.phase.Logging?
    ensures s.active == []
  {
  }

  // ---- one transaction ----

  /** begin_op, the log_writes, end_op and the commit: a crash leaves all of it or nothing. */
  lemma Transaction(s: State, store: seq<Block>, ws: seq<FsLayout.BlockWrite>, bs: set<nat>)
    returns (es: seq<Event>, t: State)
    requires Idle(s) && Agrees(s.layout, s.Current(), store) && WritesIn(s.layout, ws, bs) && |bs| <= MAXOPBLOCKS
    requires s.layout.size > MAXOPBLOCKS + 1
    ensures SafeRun(s, es, t, [store, FsLayout.Written(store, ws)]) && Idle(t) && t.layout == s.layout
    ensures Agrees(t.layout, t.Current(), FsLayout.Written(store, ws))
  {
    hide Inv, Agrees, ApplyAll;
    var images := [store, FsLayout.Written(store, ws)];
    IdleStable(s);
    assert Agrees(s.layout, s.Stable(), images[0]);
    var u := Next(s, BeginOp).value;
    KeepsImage(s, BeginOp, u, images);
    var es1, v := LogAll(u, store, ws, bs, images);
    var w := Next(v, EndOp(0)).value;
    KeepsImage(v, EndOp(0), w, images);
    assert Agrees(w.layout, w.Current(), images[1]);
    var es2;
    es2, t := CommitAll(w, images);
    SafeStep(v, EndOp(0), w, es2, t, images);
    SafeJoin(u, es1, v, [EndOp(0)] + es2, t, images);
    SafeStep(s, BeginOp, u, es1 + ([EndOp(0)] + es2), t, images);
    es := [BeginOp] + (es1 + ([EndOp(0)] + es2));
  }

  // ---- all the transactions of a write ----

  /** The stores before, between and after the transactions. */
  function Images(from: seq<Block>, txs: seq<FileCode.Tx>): (images: seq<seq<Block>>)
    ensures |images| == |txs| + 1 && images[0] == from
  {
    if txs == [] then [from] else Images(from, txs[..|txs| - 1]) + [txs[|txs| - 1].after]
  }

  /**
   * The transactions of a write, run through the log one after the other: whenever a crash falls, recovery
   * leaves the store as it was after a whole number of them, and in the end all of them are on disk.
   */
  lemma {:induction false} RunTransactions(sb: FsLayout.Super, txs: seq<FileCode.Tx>, from: seq<Block>, to: seq<Block>,
                                           s: State)
    returns (es: seq<Event>, t: State)
    requires Beside(sb, s.layout) && s.layout.size > MAXOPBLOCKS + 1 && sb.size <= FsLayout.BPB
    requires FileCode.Chained(sb, txs, from, to) && Idle(s) && Agrees(s.layout, s.Current(), from)
    ensures SafeRun(s, es, t, Images(from, txs)) && Idle(t) && t.layout == s.layout && Agrees(t.layout, t.Current(), to)
    decreases |txs|
  {
    hide Inv, Agrees, Next, FsLayout.Mountable;
    if txs == [] {
      es, t := [], s;
      IdleStable(s);
      assert Agrees(s.layout, s.Stable(), Images(from, txs)[0]);
      SafeNothing(s, Images(from, txs));
    } else {
      var n, tx := |txs| - 1, txs[|txs| - 1];
      var es1, u := RunTransactions(sb, txs[..n], from, tx.before, s);
      var es2;
      es2, t := RunOne(sb, tx, u);
      LastImage(sb, txs[..n], from, tx.before);
      SafeMore(s, es1, u, Images(from, txs[..n]), Images(from, txs));
      SafeMore(u, es2, t, [tx.before, tx.after], Images(from, txs));
      SafeJoin(s, es1, u, es2, t, Images(from, txs));
      es := es1 + es2;
    }
  }

  lemma LastImage(sb: FsLayout.Super, txs: seq<FileCode.Tx>, from: seq<Block>, to: seq<Block>)
    requires FileCode.Chained(sb, txs, from, to)
    ensures Images(from, txs)[|txs|] == to
  {
  }

  lemma RunOne(sb: FsLayout.Super, tx: FileCode.Tx, s: State) returns (es: seq<Event>, t: State)
    requires Beside(sb, s.layout) && s.layout.size > MAXOPBLOCKS + 1 && sb.size <= FsLayout.BPB
    requires FileCode.TxOk(sb, tx) && Idle(s) && Agrees(s.layout, s.Current(), tx.before)
    ensures SafeRun(s, es, t, [tx.before, tx.after]) && Idle(t)
    ensures t.layout == s.layout && Agrees(t.layout, t.Current(), tx.after)
  {
    hide Inv, Agrees, Next, FsLayout.Mountable;
    es, t := Transaction(s, tx.before, tx.writes, tx.blocks);
  }

  /** Every image is a file system in good order. */
  lemma {:induction false} ImagesMount(sb: FsLayout.Super, txs: seq<FileCode.Tx>, from: seq<Block>, to: seq<Block>,
                                       j: nat)
    requires FileCode.Chained(sb, txs, from, to) && FsLayout.Mountable(sb, from) && j <= |txs|
    ensures FsLayout.Mountable(sb, Images(from, txs)[j])
    decreases |txs|
  {
    hide FsLayout.Mountable, FsLayout.Covered;
    if txs != [] && j < |txs| { ImagesMount(sb, txs[..|txs| - 1], from, txs[|txs| - 1].before, j); }
  }

  // ---- the crash ----

  /** The steps of a machine that boots, recovers, and perhaps crashes again before it is done. */
  predicate Recovering(e: Event) { e.Crash? || e.ReadHead? || e.InstallBlock? || e.ClearHeader? }

  ghost predicate AllRecovering(es: seq<Event>) { forall i :: 0 <= i < |es| ==> Recovering(es[i]) }

  lemma RecoveringStable(s: State, e: Event, t: State)
    requires s.durable <= |s.history| && Next(s, e) == Some(t) && Recovering(e) && (s.active == [] || e.Crash?)
    ensures t.Stable() == s.Stable() && t.layout == s.layout && t.active == []
  {
    hide ApplyAll, Headed, Head;
    if e.Crash? { assert t.history[..t.durable] == s.history[..s.durable]; }
  }

  lemma RecoveringStep(s: State, e: Event, t: State)
    requires Inv(s) && Next(s, e) == Some(t) && Recovering(e) && (s.active == [] || e.Crash?)
    ensures Inv(t) && t.Stable() == s.Stable() && t.layout == s.layout && t.active == []
  {
    hide Inv, Next;
    StepKeeps(s, e, t);
    WithinBase(s);
    RecoveringStable(s, e, t);
  }

  /** However often recovery is cut short by another crash, what it restores stays the same. */
  lemma {:induction false} RecoveryKeeps(s: State, es: seq<Event>, t: State)
    requires Inv(s) && s.active == [] && Run(s, es, t) && AllRecovering(es)
    ensures Inv(t) && t.Stable() == s.Stable() && t.layout == s.layout && t.active == []
    decreases |es|
  {
    hide Next, Inv;
    if es != [] {
      var u := Next(s, es[0]).value;
      RecoveringStep(s, es[0], u);
      RecoveryKeeps(u, es[1..], t);
    }
  }

  lemma RunningAgrees(s: State)
    requires Inv(s) && s.phase.Running? && s.active == []
    ensures Agrees(s.layout, s.disk, s.Stable())
  {
    assert s.history[..s.durable] == s.history;
  }

  /** After a crash, a recovery that completes leaves one of the images, and a file system in good order. */
  ghost predicate CrashLeaves(sb: FsLayout.Super, s: State, images: seq<seq<Block>>) {
    forall es: seq<Event>, t: State :: Run(s, [Crash] + es, t) && AllRecovering(es) && t.phase.Running? ==>
      FsLayout.Mountable(sb, t.disk) && exists j :: 0 <= j < |images| && Agrees(t.layout, t.disk, images[j])
  }

  lemma CrashThen(sb: FsLayout.Super, s: State, images: seq<seq<Block>>)
    requires Recovers(s, images) && Beside(sb, s.layout)
    requires forall j :: 0 <= j < |images| ==> FsLayout.Mountable(sb, images[j])
    ensures CrashLeaves(sb, s, images)
  {
    hide Recovers, Run, Agrees, FsLayout.Mountable, Beside;
    forall es: seq<Event>, t: State | Run(s, [Crash] + es, t) && AllRecovering(es) && t.phase.Running?
      ensures FsLayout.Mountable(sb, t.disk) && exists j :: 0 <= j < |images| && Agrees(t.layout, t.disk, images[j])
    {
      CrashOne(sb, s, images, es, t);
    }
  }

  lemma CrashOne(sb: FsLayout.Super, s: State, images: seq<seq<Block>>, es: seq<Event>, t: State)
    requires Recovers(s, images) && Beside(sb, s.layout)
    requires forall j :: 0 <= j < |images| ==> FsLayout.Mountable(sb, images[j])
    requires Run(s, [Crash] + es, t) && AllRecovering(es) && t.phase.Running?
    ensures FsLayout.Mountable(sb, t.disk) && exists j :: 0 <= j < |images| && Agrees(t.layout, t.disk, images[j])
  {
    hide Inv, FsLayout.Mountable;
    assert ([Crash] + es)[1..] == es;
    var u := Next(s, Crash).value;
    RecoveringStep(s, Crash, u);
    hide Next;
    RecoveryKeeps(u, es, t);
    RunningAgrees(t);
    var j :| 0 <= j < |images| && Agrees(s.layout, s.Stable(), images[j]);
    AgreesTrans(t.layout, t.disk, t.Stable(), images[j]);
    HomeDecides(sb, t.layout, t.disk, images[j]);
  }

  lemma AgreesTrans(l: Layout, a: Disk, b: Disk, c: Disk)
    requires Agrees(l, a, b) && Agrees(l, b, c)
    ensures Agrees(l, a, c)
  {
  }

  lemma {:induction false} SafePrefix(s: State, es: seq<Event>, images: seq<seq<Block>>, i: nat, u: State)
    requires AlwaysRecovers(s, es, images) && i <= |es| && QuotaRun(s, es[..i], u)
    ensures Recovers(u, images) && u.layout == s.layout
    decreases i
  {
    hide Recovers;
    if i > 0 {
      assert es[..i][0] == es[0] && es[..i][1..] == es[1..][..i - 1];
      LayoutKept(s, es[0], Next(s, es[0]).value);
      hide Next;
      SafePrefix(Next(s, es[0]).value, es[1..], images, i - 1, u);
    }
  }

  /**
   * filewrite and the log together.  The chunks of a write, each a transaction, can be run through the log,
   * and then all of them are on disk; and if a crash falls anywhere on the way, and any number of crashes in
   * the recovery after it, the disk that recovery leaves is a file system in good order that has a whole
   * number of the chunks.
   */
  lemma WriteSurvivesCrash(sb: FsLayout.Super, txs: seq<FileCode.Tx>, from: seq<Block>, to: seq<Block>, s: State)
    returns (es: seq<Event>, t: State)
    requires Beside(sb, s.layout) && s.layout.size > MAXOPBLOCKS + 1 && sb.size <= FsLayout.BPB
    requires FileCode.Chained(sb, txs, from, to) && FsLayout.Mountable(sb, from)
    requires Idle(s) && Agrees(s.layout, s.Current(), from)
    ensures QuotaRun(s, es, t) && Idle(t) && Agrees(t.layout, t.disk, to)
    ensures forall i: nat, u: State :: i <= |es| && QuotaRun(s, es[..i], u) ==> CrashLeaves(sb, u, Images(from, txs))
  {
    hide Inv, Agrees, Next, FsLayout.Mountable, Recovers, CrashLeaves, FileCode.Chained;
    es, t := RunTransactions(sb, txs, from, to, s);
    IdleStable(t);
    AgreesTrans(t.layout, t.disk, t.Current(), to);
    var images := Images(from, txs);
    forall j | 0 <= j < |images| ensures FsLayout.Mountable(sb, images[j]) {
      ImagesMount(sb, txs, from, to, j);
    }
    forall i: nat, u: State | i <= |es| && QuotaRun(s, es[..i], u) ensures CrashLeaves(sb, u, images) {
      SafePrefix(s, es, images, i, u);
      CrashThen(sb, u, images);
    }
  }

  /** Recovery can always complete, and then restores what was durable. */
  lemma CrashRecovery(s: State) returns (es: seq<Event>, t: State)
    requires Inv(s)
    ensures Run(s, [Crash] + es, t) && AllRecovering(es) && Idle(t) && Agrees(t.layout, t.disk, s.Stable())
  {
    hide Inv;
    var u := Next(s, Crash).value;
    RecoveringStep(s, Crash, u);
    BootingHead(u);
    var v := Next(u, ReadHead).value;
    RecoveringStep(u, ReadHead, v);
    hide Next, Agrees;
    var es1;
    es1, t := InstallAll(v, 0);
    es := [ReadHead] + es1;
    assert es[1..] == es1 && ([Crash] + es)[1..] == es;
  }

  lemma BootingHead(s: State)
    requires Inv(s) && s.phase.Booting?
    ensures s.layout.start < |s.disk|
  {
  }

  lemma {:induction false} InstallAll(s: State, k: nat) returns (es: seq<Event>, t: State)
    requires Inv(s) && s.phase == Installing(k) && k <= |s.lh|
    ensures Run(s, es, t) && AllRecovering(es) && Idle(t)
    ensures t.layout == s.layout && Agrees(t.layout, t.disk, s.Stable())
    decreases |s.lh| - k
  {
    hide Next, Inv, Agrees;
    InstallingActive(s);
    if k == |s.lh| {
      HeaderNext(s);
      t := Next(s, ClearHeader).value;
      RecoveringStep(s, ClearHeader, t);
      RunningAgrees(t);
      es := [ClearHeader];
      assert es[1..] == [];
    } else {
      InstallBlockNext(s, k);
      var u := Next(s, InstallBlock).value;
      RecoveringStep(s, InstallBlock, u);
      var es1;
      es1, t := InstallAll(u, k + 1);
      es := [InstallBlock] + es1;
      assert es[1..] == es1;
    }
  }

  // ---- a place to start ----

  /** For every layout there is a formatted disk from which the log boots and which mounts. */
  lemma BlankBoots(sb: FsLayout.Super, l: Layout) returns (s: State)
    requires Beside(sb, l)
    ensures Init(s) && s.layout == l && FsLayout.Mountable(sb, s.disk)
  {
    var disk := FsFormat.Marked(sb, sb.dataStart);
    FsFormat.BlankMounts(sb);
    FsFormat.MarkedBefore(sb, sb.dataStart, l.start);
    s := State(l, disk, map[], [], [], Booting, disk, [], 0, 0, {});
  }
}
