/**
 * The block allocator and the inode layer of fs.c.  store is what bread returns: the latest contents of
 * every block, logged or not.  A method that may panic says so in its result, and then promises nothing
 * about the state it leaves, because the kernel stops.
 */
module FsCode {
  import opened Common
  import opened Blocks
  import opened FsModel
  import opened FsLayout

  const T_DEV := 3
  const NDEV := 10

  /** Error is the return value -1, Device a call into devsw, and Panic the end of the kernel. */
  datatype Io<T> = Error | Device | Panic | Done(value: T)

  class FileSystem {
    const sb: Super
    const drivers: set<nat>              // the major numbers with an entry in devsw
    var store: seq<Block>
    var icache: map<nat, Inode>          // the valid entries of the inode cache
    ghost var logged: set<nat>           // the blocks passed to log_write in the current transaction
    ghost var writes: seq<BlockWrite>    // in order, with what they wrote
    ghost var base: seq<Block>           // the store when it began
    ghost var fs: Fs
    ghost var owner: map<nat, Place>

    /** What holds even inside an operation. */
    ghost predicate Shown()
      reads this
    {
      Shows(sb, store, icache, fs) && Own(fs, owner)
    }

    /** Every cached inode but perhaps x agrees with its disk copy, and every changed block is logged. */
    ghost predicate Synced(x: nat)
      reads this
    {
      SyncedBut(sb, store, fs, x) && Covered(sb, base, store, logged, writes)
    }

    /** What holds between operations. */
    ghost predicate Valid()
      reads this
    {
      Shown() && Inv(fs, owner) && Synced(sb.ninodes)
    }

    /** Nothing has changed. */
    twostate predicate Same()
      reads this
    {
      && store == old(store) && icache == old(icache) && fs == old(fs) && owner == old(owner)
      && logged == old(logged) && writes == old(writes)
    }

    /** Mounts a disk whose bitmap, inodes and blocks show a file system in good order. */
    constructor (sb: Super, drivers: set<nat>, store: seq<Block>, ghost fs: Fs, ghost owner: map<nat, Place>)
      requires MountsAs(sb, store, fs, owner)
      ensures Valid() && this.sb == sb && this.drivers == drivers
      ensures this.store == store && icache == map[] && logged == {}
      ensures this.fs == fs && this.owner == owner
    {
      this.sb, this.drivers, this.store, this.icache := sb, drivers, store, map[];
      this.logged, this.writes, this.base, this.fs, this.owner := {}, [], store, fs, owner;
    }

    /** begin_op: a new transaction has logged nothing. */
    ghost method Begin()
      requires Valid()
      modifies this`logged, this`writes, this`base
      ensures Valid() && logged == {} && base == store
    {
      hide Shows, Own, Inv, SyncedBut, Covered;
      CoveredNothing(sb, store);
      logged, writes, base := {}, [], store;
    }

    /** Scans one bitmap block for a free block; b + bi is past its end when there is none. */
    method ScanBitmap(b: nat) returns (bi: nat)
      requires Shows(sb, store, icache, fs) && b % BPB == 0 && b < sb.size
      ensures bi <= BPB && b + bi <= sb.size && (bi < BPB && b + bi < sb.size ==> !fs.used[b + bi])
      ensures forall x: nat :: b <= x < b + bi ==> fs.used[x]
    {
      var bp := store[sb.BBlock(b)];
      bi := 0;
      while bi < BPB && b + bi < sb.size
        invariant bi <= BPB && b + bi <= sb.size
        invariant forall x: nat :: b <= x < b + bi ==> fs.used[x]
      {
        ScanBit(sb, store, b, bi);
        if !Bit(bp.words[bi / 32], bi % 32) {
          return;
        }
        bi := bi + 1;
      }
    }

    method FindFree() returns (r: Option<nat>)
      requires Shows(sb, store, icache, fs)
      ensures r.None? ==> Full(fs)
      ensures r.Some? ==> r.value < sb.size && !fs.used[r.value]
      ensures r.Some? ==> forall b: nat :: b < r.value ==> fs.used[b]
    {
      hide Shows;
      ShowsWf(sb, store, icache, fs);
      var b := 0;
      while b < sb.size
        invariant b % BPB == 0
        invariant forall x: nat :: x < b && x < sb.size ==> fs.used[x]
      {
        var bi := ScanBitmap(b);
        if bi < BPB && b + bi < sb.size {
          return Some(b + bi);
        }
        NextMultiple(b);
        b := b + BPB;
      }
      return None;
    }

    /** bzero: a block of the file system becomes zeros. */
    method Bzero(b: nat, ghost x: nat)
      requires Shows(sb, store, icache, fs) && Synced(x) && b in fs.data
      modifies this`store, this`fs, this`logged, this`writes
      ensures fs == Store(old(fs), b, ZeroBlock()) && Shows(sb, store, icache, fs) && Synced(x)
      ensures logged == old(logged) + {b}
    {
      hide SyncedBut, Covered;
      StoreShows(sb, store, icache, fs, b, ZeroBlock(), x);
      CoveredMore(sb, base, store, logged, writes, b, ZeroBlock());
      writes := writes + [BlockWrite(b, ZeroBlock())];
      store := store[b := ZeroBlock()];
      fs := Store(fs, b, ZeroBlock());
      logged := logged + {b};
    }

    /** Sets or clears the bit of block b. */
    method MarkBlock(b: nat, v: bool, ghost x: nat)
      requires Shows(sb, store, icache, fs) && Synced(x) && b < sb.size
      modifies this`store, this`fs, this`logged, this`writes
      ensures fs == old(fs).(used := old(fs).used[b := v]) && Shows(sb, store, icache, fs) && Synced(x)
      ensures logged == old(logged) + {sb.BBlock(b)}
    {
      hide SyncedBut, Covered;
      var bp := PutUsed(store[sb.BBlock(b)], b % BPB, v);
      PutUsedShows(sb, store, icache, fs, b, v, x);
      CoveredMore(sb, base, store, logged, writes, sb.BBlock(b), bp);
      writes := writes + [BlockWrite(sb.BBlock(b), bp)];
      store := store[sb.BBlock(b) := bp];
      fs := fs.(used := fs.used[b := v]);
      logged := logged + {sb.BBlock(b)};
    }

    /** Takes the first free block and zeroes it; panics when there is none. */
    method Balloc(ghost x: nat) returns (r: Option<nat>)
      requires Shows(sb, store, icache, fs) && MetaUsed(fs) && Synced(x)
      modifies this`store, this`fs, this`logged, this`writes
      ensures r.None? ==> Full(fs) && fs == old(fs)
      ensures r.Some? ==> Free(old(fs), r.value) && r.value in old(fs).data
      ensures r.Some? ==> forall b: nat :: b < r.value ==> old(fs).used[b]
      ensures r.Some? ==> fs == Alloc(old(fs), r.value) && Shows(sb, store, icache, fs) && Synced(x)
      ensures r.Some? ==> logged == old(logged) + {sb.BBlock(r.value), r.value}
    {
      hide SyncedBut, Covered;
      r := FindFree();
      if r.Some? {
        MarkBlock(r.value, true, x);
        Bzero(r.value, x);
      }
    }

    /** Frees block b; panics if it is free already. */
    method Bfree(b: nat, ghost x: nat) returns (ok: bool)
      requires Shows(sb, store, icache, fs) && Synced(x) && b < sb.size
      modifies this`store, this`fs, this`logged, this`writes
      ensures ok <==> old(fs).used[b]
      ensures ok ==> fs == old(fs).(used := old(fs).used[b := false])
      ensures ok ==> Shows(sb, store, icache, fs) && Synced(x)
      ensures ok ==> logged == old(logged) + {sb.BBlock(b)}
    {
      var bp, bi := store[sb.BBlock(b)], b % BPB;
      BitInWord(b);
      assert fs.used[b] == UsedBit(sb, store, b);
      if !Bit(bp.words[bi / 32], bi % 32) {
        return false;
      }
      MarkBlock(b, false, x);
      return true;
    }

    /** A fresh block becomes address k of the cached inode. */
    method BallocAddr(i: nat, k: nat) returns (r: Option<nat>)
      requires Shows(sb, store, icache, fs) && MetaUsed(fs) && Synced(i)
      requires i in icache && i < sb.ninodes && k <= NDIRECT && icache[i].addrs[k] == 0
      modifies this`store, this`icache, this`fs, this`logged, this`writes
      ensures r.None? ==> Full(fs)
      ensures r.Some? ==> Free(old(fs), r.value) && r.value in old(fs).data
      ensures r.Some? ==> icache == old(icache)[i := WithAddr(old(icache[i]), k, r.value)]
      ensures r.Some? ==> fs == AllocAddr(old(fs), i, k, r.value) && Shows(sb, store, icache, fs) && Synced(i)
      ensures r.Some? ==> logged == old(logged) + {sb.BBlock(r.value), r.value}
    {
      r := Balloc(i);
      if r.Some? {
        CacheShows(sb, store, icache, fs, i, WithAddr(icache[i], k, r.value));
        icache := icache[i := WithAddr(icache[i], k, r.value)];
        fs := fs.(inodes := fs.inodes[i := icache[i]]);
      }
    }

    /** Stores an entry of an indirect table. */
    method PutEntry(t: nat, e: nat, b: Uint, ghost x: nat)
      requires Shows(sb, store, icache, fs) && Synced(x) && t in fs.data && e < NINDIRECT
      modifies this`store, this`fs, this`logged, this`writes
      ensures fs == old(fs).(data := old(fs).data[t := Block(old(fs).data[t].words[e := b])])
      ensures Shows(sb, store, icache, fs) && Synced(x) && logged == old(logged) + {t}
    {
      var bp := Block(store[t].words[e := b]);
      StoreShows(sb, store, icache, fs, t, bp, x);
      CoveredMore(sb, base, store, logged, writes, t, bp);
      writes := writes + [BlockWrite(t, bp)];
      store := store[t := bp];
      fs := fs.(data := fs.data[t := bp]);
      logged := logged + {t};
    }

    /** A fresh block becomes entry e of the indirect table t. */
    method BallocEntry(t: nat, e: nat, ghost x: nat) returns (r: Option<nat>)
      requires Shows(sb, store, icache, fs) && MetaUsed(fs) && Synced(x)
      requires e < NINDIRECT && t in fs.data && fs.used[t]
      modifies this`store, this`fs, this`logged, this`writes
      ensures r.None? ==> Full(fs)
      ensures r.Some? ==> Free(old(fs), r.value) && r.value in old(fs).data
      ensures r.Some? ==> fs == AllocEntry(old(fs), t, e, r.value) && Shows(sb, store, icache, fs) && Synced(x)
      ensures r.Some? ==> logged == old(logged) + {sb.BBlock(r.value), r.value, t}
    {
      r := Balloc(x);
      if r.Some? {
        PutEntry(t, e, r.value, x);
      }
    }

    /** The blocks that bmap may log: the block, the table, and their bitmap blocks. */
    ghost function BmapLogs(i: nat, bn: nat): set<nat>
      reads this
      requires i < |fs.inodes| && bn < MAXFILE
    {
      Logs(sb, Slot(fs, i, DataSlot(bn))) + (if bn < NDIRECT then {} else Logs(sb, fs.inodes[i].addrs[NDIRECT]))
    }

    /** The address of block bn of inode i, allocated if there is none; None where the kernel panics. */
    method Bmap(i: nat, bn: nat, ghost x: nat) returns (r: Option<nat>, ghost g: Growth)
      requires Shows(sb, store, icache, fs) && Synced(x) && (x == i || x == sb.ninodes) && i in icache && i < sb.ninodes
      requires bn < MAXFILE ==> Ready(fs, i, bn)
      modifies this`store, this`icache, this`fs, this`owner, this`logged, this`writes
      ensures r.None? ==> bn >= MAXFILE || (Full(fs) && Slot(old(fs), i, DataSlot(bn)) == 0)
      ensures r.Some? ==> Grown(old(fs), old(owner), fs, owner, i, bn, g, r.value)
      ensures r.Some? ==> Shows(sb, store, icache, fs) && i in icache && Synced(if g == Found then x else i)
      ensures r.Some? ==> logged <= old(logged) + BmapLogs(i, bn)
      ensures r.Some? && g == Found ==> Same()
    {
      g := Found;
      if bn < NDIRECT {
        if icache[i].addrs[bn] == 0 {
          r := BallocAddr(i, bn);
          if r.Some? {
            g := Direct(r.value);
            owner := owner[r.value := Place(i, bn)];
          }
        } else {
          r := Some(icache[i].addrs[bn]);
        }
      } else if bn - NDIRECT < NINDIRECT {
        r, g := BmapIndirect(i, bn, x);
      } else {
        r := None;
      }
    }

    /** Loads the indirect table of inode i, allocating it if necessary. */
    method LoadTable(i: nat) returns (r: Option<nat>)
      requires Shows(sb, store, icache, fs) && MetaUsed(fs) && Synced(i) && i in icache && i < sb.ninodes
      modifies this`store, this`icache, this`fs, this`owner, this`logged, this`writes
      ensures r.None? ==> Full(fs) && old(fs).inodes[i].addrs[NDIRECT] == 0
      ensures r.Some? ==> Shows(sb, store, icache, fs) && Synced(i) && i in icache
      ensures r.Some? ==> TableLoaded(old(fs), old(owner), fs, owner, i, r.value)
      ensures r.Some? && old(fs).inodes[i].addrs[NDIRECT] != 0 ==> Same()
      ensures r.Some? ==> logged <= old(logged) + Logs(sb, r.value)
    {
      if icache[i].addrs[NDIRECT] != 0 { return Some(icache[i].addrs[NDIRECT]); }
      r := BallocAddr(i, NDIRECT);
      if r.Some? { owner := owner[r.value := Place(i, NDIRECT)]; }
    }

    /** bmap's last part: entry e of table t of inode i, allocated if there is none. */
    method LoadEntry(i: nat, t: nat, e: nat, ghost x: nat) returns (r: Option<nat>)
      requires Shows(sb, store, icache, fs) && MetaUsed(fs) && Synced(x) && e < NINDIRECT && t in fs.data && fs.used[t]
      modifies this`store, this`fs, this`owner, this`logged, this`writes
      ensures r.None? ==> Full(fs) && old(fs).data[t].words[e] == 0
      ensures r.Some? ==> Shows(sb, store, icache, fs) && Synced(x)
      ensures r.Some? ==> EntryLoaded(old(fs), old(owner), fs, owner, i, t, e, r.value)
      ensures r.Some? && old(fs).data[t].words[e] != 0 ==>
        store == old(store) && logged == old(logged) && writes == old(writes)
      ensures r.Some? ==> logged <= old(logged) + Logs(sb, r.value) + Logs(sb, t)
    {
      if store[t].words[e] == 0 {
        r := BallocEntry(t, e, x);
        if r.Some? { owner := owner[r.value := Place(i, NDIRECT + 1 + e)]; }
      } else {
        r := Some(store[t].words[e]);
      }
    }

    method BmapIndirect(i: nat, bn: nat, ghost x: nat) returns (r: Option<nat>, ghost g: Growth)
      requires Shows(sb, store, icache, fs) && Synced(x) && (x == i || x == sb.ninodes) && i in icache && i < sb.ninodes
      requires NDIRECT <= bn < MAXFILE && Ready(fs, i, bn)
      modifies this`store, this`icache, this`fs, this`owner, this`logged, this`writes
      ensures r.None? ==> Full(fs) && Slot(old(fs), i, DataSlot(bn)) == 0
      ensures r.Some? ==> Grown(old(fs), old(owner), fs, owner, i, bn, g, r.value)
      ensures r.Some? ==> Shows(sb, store, icache, fs) && i in icache && Synced(if g == Found then x else i)
      ensures r.Some? ==>
        i < |fs.inodes| && logged <= old(logged) + Logs(sb, r.value) + Logs(sb, fs.inodes[i].addrs[NDIRECT])
      ensures r.Some? && g == Found ==> Same()
    {
      ShowsWf(sb, store, icache, fs);
      hide Covered, SyncedBut, Shows, Ready, MetaUsed, Grown, TableLoaded, EntryLoaded, Full, Slot, Wf, Logs;
      CachedIs(sb, store, icache, fs, i);
      ghost var fs0, owner0 := fs, owner;
      SyncedLess(sb, store, fs, x, i);
      ReadyMeta(fs, i, bn);
      if fs.inodes[i].addrs[NDIRECT] == 0 { NoTableSlot(fs, i, bn); }
      r := LoadTable(i);
      g := Found;
      if r.None? { return; }
      var t, e := r.value, bn - NDIRECT;
      ghost var fs1, owner1 := fs, owner;
      TableUsable(fs0, owner0, fs1, owner1, i, bn, t);
      r := LoadEntry(i, t, e, i);
      if r.None? { return; }
      IndirectGrows(fs0, owner0, fs1, owner1, fs, owner, i, bn, t, r.value);
      g := IndirectGrowth(fs0, fs1, i, t, e, r.value);
    }

    /** Copies the cached inode to its disk copy. */
    method Iupdate(i: nat)
      requires Shows(sb, store, icache, fs) && Synced(i) && i in icache && i < sb.ninodes
      modifies this`store, this`logged, this`writes
      ensures Shows(sb, store, icache, fs) && Synced(sb.ninodes) && logged == old(logged) + {sb.IBlock(i)}
    {
      PutInodeShows(sb, store, icache, fs, i);
      CoveredMore(sb, base, store, logged, writes, sb.IBlock(i), PutInode(store[sb.IBlock(i)], i % IPB, icache[i]));
      writes := writes + [BlockWrite(sb.IBlock(i), PutInode(store[sb.IBlock(i)], i % IPB, icache[i]))];
      store := store[sb.IBlock(i) := PutInode(store[sb.IBlock(i)], i % IPB, icache[i])];
      logged := logged + {sb.IBlock(i)};
    }

    ghost predicate Truncating(fs0: Fs, i: nat, ks: set<nat>)
      reads this
    {
      Shows(sb, store, icache, fs) && Synced(i) && i in icache && i < sb.ninodes && Freeing(fs0, fs, i, ks)
    }

    /** Frees the block of slot k, if there is one. */
    method FreeSlot(b: nat, i: nat, k: nat, ghost fs0: Fs, ghost ks: set<nat>) returns (ok: bool)
      requires Wf(fs0) && Own(fs0, owner) && Truncating(fs0, i, ks) && k < SLOTS && k !in ks && b == Slot(fs0, i, k)
      modifies this`store, this`fs, this`logged, this`writes
      ensures ok && Truncating(fs0, i, ks + {k}) && fs.inodes == old(fs.inodes)
    {
      FreeOne(fs0, fs, owner, i, ks, k);
      ok := true;
      if b != 0 {
        ok := Bfree(b, i);
      }
    }

    /** Changes the cached copy of an inode only. */
    method SetCached(i: nat, ip: Inode)
      requires Shows(sb, store, icache, fs) && Synced(i) && i < sb.ninodes
      modifies this`icache, this`fs
      ensures Shows(sb, store, icache, fs) && Synced(i) && icache == old(icache)[i := ip]
      ensures fs == old(fs).(inodes := old(fs).inodes[i := ip])
    {
      CacheShows(sb, store, icache, fs, i, ip);
      icache := icache[i := ip];
      fs := fs.(inodes := fs.inodes[i := ip]);
    }

    method FreeDirectSlot(i: nat, k: nat, ghost fs0: Fs, ghost ks: set<nat>)
      requires Wf(fs0) && Own(fs0, owner) && Truncating(fs0, i, ks) && k < NDIRECT && k !in ks
      requires icache[i].addrs[k] == fs0.inodes[i].addrs[k]
      modifies this`store, this`icache, this`fs, this`logged, this`writes
      ensures Truncating(fs0, i, ks + {k}) && icache[i] == WithAddr(old(icache[i]), k, 0)
      ensures icache.Keys == old(icache).Keys
    {
      hide Covered, SyncedBut;
      var ok := FreeSlot(icache[i].addrs[k], i, k, fs0, ks);
      SetCached(i, WithAddr(icache[i], k, 0));
    }

    /** itrunc's first loop: the direct blocks. */
    method FreeDirect(i: nat, ghost fs0: Fs) returns (ghost ks: set<nat>)
      requires Wf(fs0) && Own(fs0, owner) && Truncating(fs0, i, {}) && fs.inodes == fs0.inodes
      modifies this`store, this`icache, this`fs, this`logged, this`writes
      ensures Truncating(fs0, i, ks) && forall k: nat :: k in ks <==> k < NDIRECT
      ensures icache.Keys == old(icache).Keys && icache[i] == fs0.inodes[i].(addrs := icache[i].addrs)
      ensures icache[i].addrs[NDIRECT] == fs0.inodes[i].addrs[NDIRECT]
      ensures forall l :: 0 <= l < NDIRECT ==> icache[i].addrs[l] == 0
    {
      hide Covered, SyncedBut, Own;
      var k := 0;
      ks := {};
      while k < NDIRECT
        invariant 0 <= k <= NDIRECT && Truncating(fs0, i, ks)
        invariant forall l: nat :: l in ks <==> l < k
        invariant icache.Keys == old(icache).Keys && icache[i] == fs0.inodes[i].(addrs := icache[i].addrs)
        invariant forall l :: k <= l <= NDIRECT ==> icache[i].addrs[l] == fs0.inodes[i].addrs[l]
        invariant forall l :: 0 <= l < k ==> icache[i].addrs[l] == 0
      {
        FreeDirectSlot(i, k, fs0, ks);
        ks := ks + {k};
        k := k + 1;
      }
    }

    /** itrunc's second loop: the indirect blocks. */
    method FreeEntries(i: nat, t: nat, ghost fs0: Fs, ghost ks0: set<nat>) returns (ghost ks: set<nat>)
      requires Wf(fs0) && Own(fs0, owner) && Truncating(fs0, i, ks0) && forall k: nat :: k in ks0 <==> k < NDIRECT
      requires fs0.inodes[i].addrs[NDIRECT] == t && t in fs0.data
      modifies this`store, this`fs, this`logged, this`writes
      ensures Truncating(fs0, i, ks) && fs.inodes == old(fs.inodes)
      ensures forall k: nat :: k in ks <==> k < SLOTS && k != NDIRECT
    {
      var j := 0;
      ks := ks0;
      while j < NINDIRECT
        invariant 0 <= j <= NINDIRECT && Truncating(fs0, i, ks) && fs.inodes == old(fs.inodes)
        invariant forall k: nat :: k in ks <==> k < NDIRECT + 1 + j && k != NDIRECT
      {
        var ok := FreeSlot(store[t].words[j], i, NDIRECT + 1 + j, fs0, ks);
        ks := ks + {NDIRECT + 1 + j};
        j := j + 1;
      }
    }

    /** The indirect entries, then the table. */
    method FreeTable(i: nat, t: nat, ghost fs0: Fs, ghost ks0: set<nat>) returns (ghost ks: set<nat>)
      requires Wf(fs0) && Own(fs0, owner) && Truncating(fs0, i, ks0) && forall k: nat :: k in ks0 <==> k < NDIRECT
      requires fs0.inodes[i].addrs[NDIRECT] == t && t in fs0.data
      modifies this`store, this`fs, this`logged, this`writes
      ensures Truncating(fs0, i, ks) && (forall k: nat :: k in ks <==> k < SLOTS) && fs.inodes == old(fs.inodes)
    {
      ks := FreeEntries(i, t, fs0, ks0);
      var ok := FreeSlot(t, i, NDIRECT, fs0, ks);
      ks := ks + {NDIRECT};
    }

    /** itrunc's indirect part. */
    method FreeIndirect(i: nat, ghost fs0: Fs, ghost ks0: set<nat>) returns (ghost ks: set<nat>)
      requires Wf(fs0) && Own(fs0, owner) && Truncating(fs0, i, ks0) && forall k: nat :: k in ks0 <==> k < NDIRECT
      requires icache[i].addrs[NDIRECT] == fs0.inodes[i].addrs[NDIRECT]
      modifies this`store, this`icache, this`fs, this`logged, this`writes
      ensures Truncating(fs0, i, ks) && forall k: nat :: k in ks <==> k < SLOTS
      ensures icache.Keys == old(icache).Keys && icache[i] == WithAddr(old(icache[i]), NDIRECT, 0)
    {
      hide Covered, SyncedBut;
      var t := icache[i].addrs[NDIRECT];
      if t != 0 {
        assert Slot(fs0, i, NDIRECT) == t;
        ks := FreeTable(i, t, fs0, ks0);
        SetCached(i, WithAddr(icache[i], NDIRECT, 0));
      } else {
        ks := FreeingNoTable(fs0, fs, i, ks0);
      }
    }

    /** Frees exactly the inode's blocks and empties it; no block is ever freed twice, so bfree never panics. */
    method Itrunc(i: nat)
      requires Valid() && i in icache && i < sb.ninodes
      modifies this`store, this`icache, this`fs, this`owner, this`logged, this`writes
      ensures Valid() && icache.Keys == old(icache).Keys && Truncated(old(fs), fs, i) && OthersSame(old(fs), fs, i)
      ensures fs.inodes[i] == old(fs).inodes[i].(size := 0, addrs := fs.inodes[i].addrs)
      ensures (forall k :: 0 <= k <= NDIRECT ==> fs.inodes[i].addrs[k] == 0) && FileBytes(fs, owner, i) == []
    {
      hide Covered, SyncedBut, Shows, Slot, Own, SameFile, OwnedBy, OwnedAt;
      ghost var fs0 := fs;
      CachedIs(sb, store, icache, fs, i);
      SyncedLess(sb, store, fs, sb.ninodes, i);
      FreeingNone(fs0, i);
      ghost var ks := FreeDirect(i, fs0);
      ks := FreeIndirect(i, fs0, ks);
      SetCached(i, icache[i].(size := 0));
      Iupdate(i);
      CachedIs(sb, store, icache, fs, i);
      assert icache[i].addrs == Emptied(fs0.inodes[i]).addrs;
      FreeingAll(fs0, fs, i, ks);
      TruncatedInv(fs0, fs, owner, i);
      owner := owner - OwnedBy(fs0, i);
    }

    /** Reads the part of [off, off + n) that lies inside the file; nothing is allocated or written. */
    method Readi(i: nat, off: Uint, n: Uint) returns (r: Io<seq<Byte>>)
      requires Valid() && i in icache && i < sb.ninodes
      modifies this`store, this`icache, this`fs, this`owner, this`logged, this`writes
      ensures Same()
      ensures icache[i].kind == T_DEV ==>
        r == (if icache[i].major in drivers && icache[i].major < NDEV then Device else Error)
      ensures icache[i].kind != T_DEV ==> var s := FileBytes(fs, owner, i);
        r == if off > |s| || off + n >= UINT_LIMIT then Error
             else Done(s[off..if off + n > |s| then |s| else off + n])
    {
      hide Covered, SyncedBut, Shows, Own, Inv, Mapped, Holds, BlocksFor;
      SyncedLess(sb, store, fs, sb.ninodes, i);
      CachedIs(sb, store, icache, fs, i);
      ReadReady(fs, owner, i);
      var ip := icache[i];
      if ip.kind == T_DEV {
        return if ip.major >= NDEV || ip.major !in drivers then Error else Device;
      }
      if off > ip.size || (off + n) % UINT_LIMIT < off {
        return Error;
      }
      var len := if off + n > ip.size then ip.size - off else n;
      var dst := ReadLoop(i, off, len, FileBytes(fs, owner, i), BlocksFor(ip.size));
      return Done(dst);
    }

    method ReadLoop(i: nat, off0: nat, n: nat, ghost s: seq<Byte>, ghost m: nat) returns (dst: seq<Byte>)
      requires Shown() && Synced(i) && i in icache && i < sb.ninodes
      requires Mapped(fs, i, m) && Holds(fs, i, s) && |s| <= m * BSIZE && off0 + n <= |s|
      modifies this`store, this`icache, this`fs, this`owner, this`logged, this`writes
      ensures Same()
      ensures dst == s[off0..off0 + n]
    {
      hide Covered, SyncedBut, Own;
      var tot, off := 0, off0;
      dst := [];
      while tot < n
        invariant 0 <= tot <= n && off == off0 + tot && dst == s[off0..off]
        invariant Same()
      {
        var k := BSIZE - off % BSIZE;
        if n - tot < k { k := n - tot; }
        BlockPiece(fs, i, s, off, k);
        SliceMore(s, off0, off, off + k);
        var a := BmapMapped(i, off / BSIZE, m);
        assert fs.data[a] == store[a];
        dst := dst + Bytes(store[a])[off % BSIZE..off % BSIZE + k];
        tot, off := tot + k, off + k;
      }
    }

    /** bmap of a mapped block: it finds the block and changes nothing. */
    method BmapMapped(i: nat, bn: nat, ghost m: nat) returns (a: nat)
      requires Shown() && Synced(i) && i in icache && i < sb.ninodes && Mapped(fs, i, m) && bn < m
      modifies this`store, this`icache, this`fs, this`owner, this`logged, this`writes
      ensures Same()
      ensures a == Slot(fs, i, DataSlot(bn)) && a in fs.data
    {
      ghost var fs0, owner0 := fs, owner;
      OwnReady(fs, owner, i, bn);
      var r, g := Bmap(i, bn, i);
      assert r.Some?;
      GrowMaps(fs0, owner0, i, bn, g, m);
      a := r.value;
    }

    /** Copies bytes into a data block and logs it. */
    method PutBytes(a: nat, o: nat, src: seq<Byte>, ghost x: nat)
      requires Shows(sb, store, icache, fs) && Synced(x) && a in fs.data && o + |src| <= BSIZE
      modifies this`store, this`fs, this`logged, this`writes
      ensures Shows(sb, store, icache, fs) && Synced(x)
      ensures fs == Store(old(fs), a, Patch(old(fs).data[a], o, src)) && logged == old(logged) + {a}
    {
      var bp := Patch(store[a], o, src);
      StoreShows(sb, store, icache, fs, a, bp, x);
      CoveredMore(sb, base, store, logged, writes, a, bp);
      writes := writes + [BlockWrite(a, bp)];
      store := store[a := bp];
      fs := Store(fs, a, bp);
      logged := logged + {a};
    }

    /** The blocks that writing file i may log beside its data: the bitmap block and the indirect table. */
    ghost function Extra(i: nat): set<nat>
      reads this
      requires i < |fs.inodes|
    {
      {sb.bmapStart} + TableOf(fs, i)
    }

    /** With one bitmap block, bmap logs at most the block, the bitmap block and the table. */
    lemma BmapLogsSmall(i: nat, bn: nat)
      requires Shows(sb, store, icache, fs) && i < |fs.inodes| && bn < MAXFILE
      requires sb.size <= BPB && Slot(fs, i, DataSlot(bn)) in fs.data
      requires bn >= NDIRECT ==> fs.inodes[i].addrs[NDIRECT] in fs.data && fs.inodes[i].addrs[NDIRECT] != 0
      ensures BmapLogs(i, bn) <= {Slot(fs, i, DataSlot(bn))} + Extra(i)
    {
      assert forall b: nat :: b < sb.size ==> sb.BBlock(b) == sb.bmapStart;
    }

    /** bmap, memmove and log_write for one piece of the range. */
    method WritePiece(i: nat, off: nat, piece: seq<Byte>, ghost x: nat) returns (r: Option<nat>, ghost g: Growth)
      requires Shows(sb, store, icache, fs) && Synced(x) && (x == i || x == sb.ninodes) && i in icache && i < sb.ninodes
      requires off / BSIZE < MAXFILE && Ready(fs, i, off / BSIZE) && 0 < |piece| <= BSIZE - off % BSIZE
      modifies this`store, this`icache, this`fs, this`owner, this`logged, this`writes
      ensures r.None? ==> Full(fs)
      ensures r.Some? ==> Shows(sb, store, icache, fs) && i in icache && Synced(if g == Found then x else i)
      ensures r.Some? ==> Piece(old(fs), old(owner), fs, owner, i, off, piece, g)
      ensures r.Some? && sb.size <= BPB ==> logged <= old(logged) + {r.value} + Extra(i) && old(Extra(i)) <= Extra(i)
      ensures r.Some? && Slot(old(fs), i, DataSlot(off / BSIZE)) != 0 ==> g == Found
      ensures r.Some? ==> |fs.inodes| == |old(fs).inodes| && (g == Found ==> fs.inodes == old(fs).inodes)
    {
      hide Covered, SyncedBut;
      ghost var fs1 := fs;
      r, g := Bmap(i, off / BSIZE, x);
      if r.Some? {
        ghost var block := Patch(store[r.value], off % BSIZE, piece);
        StoreInSlot(fs1, i, off / BSIZE, g, block);
        if sb.size <= BPB { BmapLogsSmall(i, off / BSIZE); }
        PutBytes(r.value, off % BSIZE, piece, if g == Found then x else i);
      }
    }

    /**
     * What writei keeps while it goes round: the first tot bytes of src are written.  x is i once the
     * inode's disk copy may be out of date, and sb.ninodes while it is not.
     */
    ghost predicate Writing(fs0: Fs, owner0: map<nat, Place>, s: seq<Byte>,
                            i: nat, off: nat, src: seq<Byte>, tot: nat, x: nat)
      reads this
    {
      && Shows(sb, store, icache, fs) && i in icache && i < sb.ninodes == |fs.inodes| && Synced(x)
      && tot <= |src| && Wrote(fs0, owner0, s, fs, owner, i, off, src, tot)
      && (x == i || (x == sb.ninodes && fs.inodes == fs0.inodes))
    }

    /** One turn of writei's loop, of k bytes; a is the data block it logs. */
    method WriteTurn(i: nat, off: nat, src: seq<Byte>, tot: nat, k: nat,
                     ghost fs0: Fs, ghost owner0: map<nat, Place>, ghost s: seq<Byte>, ghost x: nat)
      returns (ok: bool, ghost y: nat, ghost a: nat)
      requires Writing(fs0, owner0, s, i, off, src, tot, x) && off + |src| <= MAXFILE * BSIZE
      requires 0 < k <= BSIZE - (off + tot) % BSIZE && tot + k <= |src|
      modifies this`store, this`icache, this`fs, this`owner, this`logged, this`writes
      ensures !ok ==> Full(fs)
      ensures ok ==> Writing(fs0, owner0, s, i, off, src, tot + k, y)
      ensures ok && off + tot < |s| ==> y == x
      ensures ok && sb.size <= BPB ==> logged <= old(logged) + {a} + Extra(i) && old(Extra(i)) <= Extra(i)
    {
      hide Covered, Shows, SyncedBut, Ready, Piece;
      ghost var fs1, owner1, g := fs, owner, Found;
      WroteReady(fs0, owner0, s, fs, owner, i, off, src, tot);
      if off + tot < |s| { WroteMapped(fs0, owner0, s, fs, owner, i, off, src, tot); }
      var r: Option<nat>;
      r, g := WritePiece(i, off + tot, src[tot..tot + k], x);
      ok, y, a := r.Some?, if g == Found then x else i, 0;
      if ok {
        a := r.value;
        WroteMore(fs0, owner0, s, fs1, owner1, fs, owner, i, off, src, tot, tot + k, g);
      }
    }

    /** writei's loop: ds is the data blocks it logs, one for each block that the range touches. */
    method WriteLoop(i: nat, off: nat, src: seq<Byte>, ghost s: seq<Byte>)
      returns (ok: bool, ghost y: nat, ghost ds: set<nat>)
      requires Writing(fs, owner, s, i, off, src, 0, sb.ninodes) && off + |src| <= MAXFILE * BSIZE
      modifies this`store, this`icache, this`fs, this`owner, this`logged, this`writes
      ensures !ok ==> Full(fs)
      ensures ok ==> Writing(old(fs), old(owner), s, i, off, src, |src|, y)
      ensures ok && off + |src| <= |s| ==> y == sb.ninodes
      ensures ok && sb.size <= BPB ==> logged <= old(logged) + ds + Extra(i)
      ensures ok ==> |ds| <= BlocksTouched(off, |src|)
    {
      hide Covered, Shows, SyncedBut, Wrote;
      var tot := 0;
      ok, y, ds := true, sb.ninodes, {};
      while tot < |src|
        invariant 0 <= tot <= |src| && ok && i < |fs.inodes|
        invariant Writing(old(fs), old(owner), s, i, off, src, tot, y)
        invariant off + tot <= |s| ==> y == sb.ninodes
        invariant sb.size <= BPB ==> logged <= old(logged) + ds + Extra(i)
        invariant |ds| <= BlocksTouched(off, tot) && (tot < |src| ==> OnBoundary(off, tot))
      {
        var k := BSIZE - (off + tot) % BSIZE;
        if |src| - tot < k { k := |src| - tot; }
        TouchMore(off, tot, k);
        ghost var a: nat;
        ok, y, a := WriteTurn(i, off, src, tot, k, old(fs), old(owner), s, y);
        if !ok { return; }
        ds := ds + {a};
        tot := tot + k;
      }
    }

    /** The part of writei after its loop: the new size is recorded only if the file grew. */
    method WriteSize(i: nat, off: nat, src: seq<Byte>, ghost fs0: Fs, ghost owner0: map<nat, Place>, ghost s: seq<Byte>,
                     ghost y: nat)
      requires i < |fs0.inodes| && i < |fs.inodes|
      requires Writing(fs0, owner0, s, i, off, src, |src|, y) && (off + |src| <= |s| ==> y == sb.ninodes)
      requires Inv(fs0, owner0) && |s| == fs0.inodes[i].size
      requires off + |src| <= MAXFILE * BSIZE && fs0.inodes[i].kind != 0
      modifies this`store, this`icache, this`fs, this`logged, this`writes
      ensures Valid() && i in icache && Spliced(fs0, fs, owner, i, s, off, src)
      ensures i < |fs.inodes| && logged <= old(logged) + {sb.IBlock(i)} && TableOf(fs, i) == old(TableOf(fs, i))
    {
      hide Covered, Shows, SyncedBut, Wrote, Inv, Own, Wf, Holds, Compact, OthersSame;
      WroteMeans(fs0, owner0, s, fs, owner, i, off, src, |src|);
      ghost var cur := Splice(s, off, src);
      assert src[..|src|] == src;
      SizeFits(fs0, owner0, i);
      WriteEnds(fs0, owner0, fs, owner, i, cur);
      CachedIs(sb, store, icache, fs, i);
      ghost var fs1 := fs;
      if |src| > 0 && off + |src| > icache[i].size {
        SyncedLess(sb, store, fs, y, i);
        SetCached(i, icache[i].(size := off + |src|));
        Iupdate(i);
      }
      assert fs == Sized(fs1, i, |cur|);
      InvOwns(fs, owner);
      ContentsUnique(fs, i, cur, FileBytes(fs, owner, i));
    }

    /** Writes src at off; fails exactly when off is past the end or the file would be too large. */
    method Writei(i: nat, off: Uint, src: seq<Byte>) returns (r: Io<nat>)
      requires Valid() && i in icache && i < sb.ninodes && icache[i].kind != 0 && |src| < UINT_LIMIT
      modifies this`store, this`icache, this`fs, this`owner, this`logged, this`writes
      ensures r.Panic? ==> Full(fs)
      ensures !r.Panic? ==> Valid() && i in icache
      ensures r.Error? || r.Device? ==> Same()
      ensures old(icache[i]).kind == T_DEV ==>
        r == if old(icache[i]).major in drivers && old(icache[i]).major < NDEV then Device else Error
      ensures old(icache[i]).kind != T_DEV && !r.Panic? ==>
        (r.Error? <==> off > |old(FileBytes(fs, owner, i))| || off + |src| > MAXFILE * BSIZE)
      ensures old(icache[i]).kind != T_DEV && !r.Panic? && !r.Error? ==>
        r == Done(|src|) && Spliced(old(fs), fs, owner, i, old(FileBytes(fs, owner, i)), off, src)
      ensures r.Done? && sb.size <= BPB ==> |logged - old(logged)| <= BlocksTouched(off, |src|) + 3
    {
      hide Covered, Shows, SyncedBut, Wrote, Own, Wf, Holds, OthersSame, Inv;
      CachedIs(sb, store, icache, fs, i);
      SizeFits(fs, owner, i);
      var ip := icache[i];
      ghost var fs0, owner0, s := fs, owner, FileBytes(fs, owner, i);
      if ip.kind == T_DEV {
        return if ip.major >= NDEV || ip.major !in drivers then Error else Device;
      }
      if off > ip.size || (off + |src|) % UINT_LIMIT < off { return Error; }
      if off + |src| > MAXFILE * BSIZE { return Error; }
      WriteBegins(fs, owner, i, off, src, s);
      ghost var y: nat, ds: set<nat>;
      var ok;
      ok, y, ds := WriteLoop(i, off, src, s);
      if !ok { return Panic; }
      ghost var log1 := logged;
      WriteSize(i, off, src, fs0, owner0, s, y);
      if sb.size <= BPB { FewBlocks(logged - old(logged), ds, sb.bmapStart, TableOf(fs, i), sb.IBlock(i)); }
      return Done(|src|);
    }
  }

  /** What allocating block b may log. */
  ghost function Logs(sb: Super, b: nat): set<nat> { {b, sb.BBlock(b)} }

  /** Exactly the bytes of file i changed, from s to the splice of src at off. */
  ghost predicate Spliced(fs0: Fs, fs: Fs, owner: map<nat, Place>, i: nat, s: seq<Byte>, off: nat, src: seq<Byte>) {
    && Inv(fs, owner) && i < |fs0.inodes| && OthersSame(fs0, fs, i)
    && off <= |s| && FileBytes(fs, owner, i) == Splice(s, off, src)
    && fs.inodes[i] == fs0.inodes[i].(size := fs.inodes[i].size, addrs := fs.inodes[i].addrs)
  }

  lemma SizeFits(fs: Fs, owner: map<nat, Place>, i: nat)
    requires Inv(fs, owner) && i < |fs.inodes|
    ensures fs.inodes[i].size <= MAXFILE * BSIZE
  {
    assert FileOk(fs, i);
  }

  lemma SliceMore(s: seq<Byte>, a: nat, b: nat, c: nat)
    requires a <= b <= c <= |s|
    ensures s[a..c] == s[a..b] + s[b..c]
  {
  }

  /** The blocks of a file hold its bytes. */
  lemma ReadReady(fs: Fs, owner: map<nat, Place>, i: nat)
    requires Inv(fs, owner) && i < |fs.inodes|
    ensures var m, s := BlocksFor(fs.inodes[i].size), FileBytes(fs, owner, i);
      Mapped(fs, i, m) && Holds(fs, i, s) && |s| == fs.inodes[i].size <= m * BSIZE
  {
    hide Own, Holds;
    assert FileOk(fs, i);
  }

  lemma InvOwns(fs: Fs, owner: map<nat, Place>)
    requires Inv(fs, owner)
    ensures Wf(fs) && Own(fs, owner)
  {
  }

  lemma ShowsWf(sb: Super, store: seq<Block>, icache: map<nat, Inode>, fs: Fs)
    requires Shows(sb, store, icache, fs)
    ensures Wf(fs) && |fs.used| == sb.size
  {
  }

  lemma NextMultiple(b: nat)
    requires b % BPB == 0
    ensures (b + BPB) % BPB == 0
  {
  }

  lemma CachedIs(sb: Super, store: seq<Block>, icache: map<nat, Inode>, fs: Fs, i: nat)
    requires Shows(sb, store, icache, fs) && i in icache && i < sb.ninodes
    ensures |fs.inodes| == sb.ninodes && fs.inodes[i] == icache[i]
  {
  }

  lemma WriteBegins(fs: Fs, owner: map<nat, Place>, i: nat, off: nat, src: seq<Byte>, s: seq<Byte>)
    requires Inv(fs, owner) && Contents(fs, i, s) && off <= |s| && off + |src| <= MAXFILE * BSIZE
    ensures Wrote(fs, owner, s, fs, owner, i, off, src, 0)
  {
    assert FileOk(fs, i);
  }

  lemma FewBlocks(x: set<nat>, ds: set<nat>, b: nat, t: set<nat>, n: nat)
    requires x <= ds + {b} + t + {n} && |t| <= 1
    ensures |x| <= |ds| + 3
  {
    var all := ds + {b} + t + {n};
    assert x + (all - x) == all;
  }
}
