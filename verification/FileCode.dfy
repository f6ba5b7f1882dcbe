/** filewrite of file.c for an ordinary file: one transaction for each chunk of three blocks. */
module FileCode {
  import opened Common
  import opened Blocks
  import opened FsModel
  import opened FsLayout
  import opened FsCode
  import LogMachine

  const CHUNK := (LogMachine.MAXOPBLOCKS - 1 - 1 - 2) / 2 * 512

  /** How many bytes filewrite writes: all, or as many whole chunks as fit in the largest file. */
  function Writable(off: nat, size: nat, n: nat): nat {
    if n == 0 || off > size then 0
    else if off + n <= MAXFILE * BSIZE then n
    else if off > MAXFILE * BSIZE then 0
    else (MAXFILE * BSIZE - off) / CHUNK * CHUNK
  }

  /** A chunk that does not fit is the first that does not fit. */
  lemma LastChunk(off: nat, size: nat, n: nat, w: nat, n1: nat)
    requires off <= size && w < n && w % CHUNK == 0 && off + w <= MAXFILE * BSIZE
    requires n1 == (if n - w > CHUNK then CHUNK else n - w) && off + w + n1 > MAXFILE * BSIZE
    ensures Writable(off, size, n) == w
  {
  }

  /** The first w bytes of src are spliced in at off; from an offset past the end of s nothing is written. */
  ghost predicate SoFar(fs0: Fs, fs: Fs, owner: map<nat, Place>, i: nat, s: seq<Byte>, off: nat, src: seq<Byte>,
                        w: nat) {
    && Inv(fs, owner) && i < |fs.inodes| && w <= |src|
    && if off <= |s| then Spliced(fs0, fs, owner, i, s, off, src[..w])
       else w == 0 && fs == fs0 && FileBytes(fs, owner, i) == s
  }

  lemma SoFarNothing(fs: Fs, owner: map<nat, Place>, i: nat, off: nat, src: seq<Byte>)
    requires Inv(fs, owner) && i < |fs.inodes|
    ensures SoFar(fs, fs, owner, i, FileBytes(fs, owner, i), off, src, 0)
  {
  }

  lemma SoFarMore(fs0: Fs, fs1: Fs, owner1: map<nat, Place>, fs2: Fs, owner2: map<nat, Place>,
                  i: nat, s: seq<Byte>, off: nat, src: seq<Byte>, k: nat, l: nat)
    requires k <= l <= |src| && SoFar(fs0, fs1, owner1, i, s, off, src, k)
    requires Spliced(fs1, fs2, owner2, i, FileBytes(fs1, owner1, i), off + k, src[k..l])
    ensures SoFar(fs0, fs2, owner2, i, s, off, src, l)
  {
    hide Inv;
    if off <= |s| {
      OthersSameTrans(fs0, fs1, fs2, i);
      SpliceMore(s, off, src, k, l);
    }
  }

  /** An unaligned chunk touches at most four blocks. */
  lemma ChunkTouches(off: nat, n: nat)
    requires n <= CHUNK
    ensures BlocksTouched(off, n) <= 4
  {
  }

  /** One transaction: the store before and after it, the calls of log_write and the blocks that they name. */
  datatype Tx = Tx(before: seq<Block>, after: seq<Block>, blocks: set<nat>, writes: seq<BlockWrite>)

  /** Its writes lead from before to after, it stayed within its reservation, and left a file system in good order. */
  ghost predicate TxOk(sb: Super, tx: Tx) {
    && Covered(sb, tx.before, tx.after, tx.blocks, tx.writes) && Mountable(sb, tx.after)
    && (sb.size <= BPB ==> |tx.blocks| <= LogMachine.MAXOPBLOCKS)
  }

  /** The transactions lead from one store to the other. */
  ghost predicate Chained(sb: Super, txs: seq<Tx>, from: seq<Block>, to: seq<Block>) {
    if txs == [] then from == to
    else
      var last := txs[|txs| - 1];
      last.after == to && TxOk(sb, last) && Chained(sb, txs[..|txs| - 1], from, last.before)
  }

  lemma {:induction false} ChainMore(sb: Super, txs: seq<Tx>, from: seq<Block>, tx: Tx)
    requires Chained(sb, txs, from, tx.before) && TxOk(sb, tx)
    ensures Chained(sb, txs + [tx], from, tx.after)
  {
    hide TxOk;
    assert (txs + [tx])[..|txs|] == txs;
  }

  lemma SoFarMeans(fs0: Fs, fs: Fs, owner: map<nat, Place>, i: nat, s: seq<Byte>, off: nat, src: seq<Byte>, w: nat)
    requires SoFar(fs0, fs, owner, i, s, off, src, w)
    ensures w <= |src| && (off > |s| ==> w == 0 && fs == fs0)
    ensures off <= |s| ==> Spliced(fs0, fs, owner, i, s, off, src[..w])
  {
  }

  class File {
    const inum: nat
    const writable: bool
    var off: Uint

    constructor (inum: nat, writable: bool)
      ensures this.inum == inum && this.writable == writable && off == 0
    {
      this.inum, this.writable, off := inum, writable, 0;
    }

    /** w bytes of addr are written, by the transactions txs. */
    ghost predicate Ongoing(disk: FileSystem, fs0: Fs, store0: seq<Block>, s: seq<Byte>, off0: nat, addr: seq<Byte>,
                            w: nat, txs: seq<Tx>)
      reads this, disk
    {
      && disk.Valid() && inum in disk.icache && inum < disk.sb.ninodes == |disk.fs.inodes|
      && disk.fs.inodes[inum].kind != 0 && disk.fs.inodes[inum].kind != T_DEV
      && w <= |addr| && off == off0 + w && SoFar(fs0, disk.fs, disk.owner, inum, s, off0, addr, w)
      && Chained(disk.sb, txs, store0, disk.store)
    }

    /** One turn: a transaction that writes n1 bytes. */
    method WriteChunk(disk: FileSystem, addr: seq<Byte>, w: nat, n1: nat,
                      ghost fs0: Fs, ghost store0: seq<Block>, ghost s: seq<Byte>, ghost off0: nat, ghost txs: seq<Tx>)
      returns (r: Io<nat>, ghost txs': seq<Tx>)
      requires Ongoing(disk, fs0, store0, s, off0, addr, w, txs) && 0 < n1 <= CHUNK && w + n1 <= |addr| < UINT_LIMIT
      modifies this`off, disk`store, disk`icache, disk`fs, disk`owner, disk`logged, disk`writes, disk`base
      ensures r.Panic? ==> Full(disk.fs)
      ensures r.Error? ==>
        Ongoing(disk, fs0, store0, s, off0, addr, w, txs') && (off0 > |s| || off0 + w + n1 > MAXFILE * BSIZE)
      ensures !r.Panic? && !r.Error? ==> Ongoing(disk, fs0, store0, s, off0, addr, w + n1, txs') && r == Done(n1)
      ensures r.Done? ==> off0 <= |s| && off0 + w + n1 <= MAXFILE * BSIZE
    {
      hide Covered, Shows, SyncedBut, Own, Wf, Inv, OthersSame, BlocksTouched, FileBytes, Contents, Full, Splice,
        TxOk, Chained;
      CachedIs(disk.sb, disk.store, disk.icache, disk.fs, inum);
      disk.Begin();
      ghost var fs1, owner1 := disk.fs, disk.owner;
      r := disk.Writei(inum, off, addr[w..w + n1]);
      txs' := txs;
      if r.Done? {
        off := off + r.value;
        ghost var tx := Tx(disk.base, disk.store, disk.logged, disk.writes);
        assert disk.logged - {} == disk.logged;
        ChunkTouches(off0 + w, n1);
        ChunkTx(disk);
        ChainMore(disk.sb, txs, store0, tx);
        txs' := txs + [tx];
        CachedIs(disk.sb, disk.store, disk.icache, disk.fs, inum);
        SoFarMore(fs0, fs1, owner1, disk.fs, disk.owner, inum, s, off0, addr, w, w + n1);
      }
    }

    /**
     * The loop for an ordinary file: writes addr at the file's offset, in chunks, each of them a transaction.
     * Not all of it may fit, and then the whole chunks that do fit are written all the same and the offset is
     * past them.
     */
    method WriteChunks(disk: FileSystem, addr: seq<Byte>) returns (r: Io<nat>, ghost txs: seq<Tx>)
      requires disk.Valid() && inum in disk.icache && inum < disk.sb.ninodes == |disk.fs.inodes| && |addr| < 0x8000_0000
      requires disk.fs.inodes[inum].kind != 0 && disk.fs.inodes[inum].kind != T_DEV
      modifies this`off, disk`store, disk`icache, disk`fs, disk`owner, disk`logged, disk`writes, disk`base
      ensures r.Panic? ==> Full(disk.fs)
      ensures !r.Panic? ==> disk.Valid() && !r.Device? && Chained(disk.sb, txs, old(disk.store), disk.store)
      ensures !r.Panic? ==>
        Wrote(r, old(disk.fs), disk.fs, disk.owner, old(FileBytes(disk.fs, disk.owner, inum)), old(off), off, addr)
    {
      hide Covered, Shows, SyncedBut, Own, Wf, Inv, OthersSame, Spliced, SoFar, TxOk;
      txs := [];
      ghost var s := FileBytes(disk.fs, disk.owner, inum);
      CachedIs(disk.sb, disk.store, disk.icache, disk.fs, inum);
      ghost var fs0 := disk.fs;
      SizeFits(fs0, disk.owner, inum);
      SoFarNothing(fs0, disk.owner, inum, off, addr);
      var w := 0;
      while w < |addr|
        invariant w <= |addr| && Ongoing(disk, fs0, old(disk.store), s, old(off), addr, w, txs)
        invariant w < |addr| ==> w % CHUNK == 0
        invariant old(off) <= |s| ==> old(off) + w <= MAXFILE * BSIZE
      {
        var n1 := if |addr| - w > CHUNK then CHUNK else |addr| - w;
        r, txs := WriteChunk(disk, addr, w, n1, fs0, old(disk.store), s, old(off), txs);
        if r.Panic? { return; }
        if r.Error? {
          SoFarMeans(fs0, disk.fs, disk.owner, inum, s, old(off), addr, w);
          if old(off) <= |s| { LastChunk(old(off), |s|, |addr|, w, n1); }
          return;
        }
        w := w + n1;
      }
      SoFarMeans(fs0, disk.fs, disk.owner, inum, s, old(off), addr, w);
      return Done(|addr|), txs;
    }

    /** The bytes that fit are spliced in, and -1 is returned exactly when not all of them do. */
    ghost predicate Wrote(r: Io<nat>, fs0: Fs, fs: Fs, owner: map<nat, Place>, s: seq<Byte>, off0: nat, off1: nat,
                          addr: seq<Byte>) {
      var w := Writable(off0, |s|, |addr|);
      && r == (if w == |addr| then Done(w) else Error) && off1 == off0 + w && w <= |addr|
      && (off0 > |s| ==> fs == fs0)
      && (off0 <= |s| ==> Spliced(fs0, fs, owner, inum, s, off0, addr[..w]))
    }

    /**
     * filewrite of n bytes of addr to an inode.  A file that is not writable and a negative count are refused; a
     * device is left to its driver, or refused if it has none.
     */
    method FileWrite(disk: FileSystem, addr: seq<Byte>, n: int) returns (r: Io<nat>, ghost txs: seq<Tx>)
      requires disk.Valid() && inum in disk.icache && inum < disk.sb.ninodes == |disk.fs.inodes|
      requires disk.fs.inodes[inum].kind != 0 && n <= |addr| && n < 0x8000_0000
      modifies this`off, disk`store, disk`icache, disk`fs, disk`owner, disk`logged, disk`writes, disk`base
      ensures r.Panic? ==> Full(disk.fs)
      ensures !r.Panic? ==> disk.Valid() && Chained(disk.sb, txs, old(disk.store), disk.store)
      ensures !writable || n < 0 ==> r == Error
      ensures !writable || n <= 0 || old(disk.fs).inodes[inum].kind == T_DEV ==>
        off == old(off) && disk.fs == old(disk.fs)
      ensures writable && n > 0 && old(disk.fs).inodes[inum].kind == T_DEV ==>
        var major := old(disk.fs).inodes[inum].major;
        r == if major in disk.drivers && major < NDEV then Device else Error
      ensures writable && n >= 0 && old(disk.fs).inodes[inum].kind != T_DEV && !r.Panic? ==>
        Wrote(r, old(disk.fs), disk.fs, disk.owner, old(FileBytes(disk.fs, disk.owner, inum)), old(off), off, addr[..n])
    {
      hide Covered, Shows, SyncedBut, Own, Wf, Inv, OthersSame, Spliced, FileBytes, Full, Splice;
      txs := [];
      if !writable || n < 0 { return Error, txs; }
      if n == 0 {
        SplicedNothing(disk.fs, disk.owner, inum, off);
        return Done(0), txs;
      }
      CachedIs(disk.sb, disk.store, disk.icache, disk.fs, inum);
      if disk.icache[inum].kind == T_DEV {
        r := disk.Writei(inum, off, addr[..if n > CHUNK then CHUNK else n]);
        return;
      }
      r, txs := WriteChunks(disk, addr[..n]);
    }
  }

  lemma SplicedNothing(fs: Fs, owner: map<nat, Place>, i: nat, off: nat)
    requires Inv(fs, owner) && i < |fs.inodes|
    ensures off <= |FileBytes(fs, owner, i)| ==> Spliced(fs, fs, owner, i, FileBytes(fs, owner, i), off, [])
  {
  }

  /** What a transaction of the file system has done when it ends. */
  lemma ChunkTx(disk: FileSystem)
    requires disk.Valid() && (disk.sb.size <= BPB ==> |disk.logged| <= 7)
    ensures TxOk(disk.sb, Tx(disk.base, disk.store, disk.logged, disk.writes))
  {
    SyncedMounts(disk.sb, disk.store, disk.icache, disk.fs, disk.owner);
  }
}
