/**
 * The inode cache of fs.c: iget, ilock, iput and ialloc.  Entries may be for inodes of any
 * device; those that are valid are for inodes of the file system on ROOTDEV, and disk.icache is what they hold.
 */
module InodeCode {
  import opened Common
  import opened Blocks
  import opened FsModel
  import opened FsLayout
  import opened FsCode

  const NINODE := 50
  const ROOTDEV := 1

  datatype InCore = InCore(dev: nat, inum: nat, ref: nat, valid: bool)

  /** The entry is in use for inode inum of dev. */
  predicate Refers(e: InCore, dev: nat, inum: nat) { e.ref > 0 && e.dev == dev && e.inum == inum }

  /** The entry holds inode i of the file system. */
  predicate Caches(e: InCore, i: nat) { Refers(e, ROOTDEV, i) && e.valid }

  /** No inode has two referenced entries. */
  ghost predicate OneEach(es: seq<InCore>) {
    forall j, k :: 0 <= j < k < |es| && es[j].ref > 0 ==> !Refers(es[k], es[j].dev, es[j].inum)
  }

  /** A valid entry is for an inode that the file system sees as cached, and is not free. */
  ghost predicate ValidOnes(es: seq<InCore>, icache: map<nat, Inode>, ninodes: nat) {
    && (forall j :: 0 <= j < |es| && es[j].ref > 0 && es[j].valid ==>
          es[j].dev == ROOTDEV && es[j].inum < ninodes && es[j].inum in icache)
    && (forall i :: i in icache ==> icache[i].kind != 0)
  }

  /** Every cached inode has its entry. */
  ghost predicate Backed(es: seq<InCore>, icache: map<nat, Inode>) {
    forall i :: i in icache ==> exists j :: 0 <= j < |es| && Caches(es[j], i)
  }

  ghost predicate EntriesOk(es: seq<InCore>, icache: map<nat, Inode>, ninodes: nat) {
    |es| == NINODE && OneEach(es) && ValidOnes(es, icache, ninodes) && Backed(es, icache)
  }

  /** Two entries in use are not for the same inode. */
  lemma OneEntry(es: seq<InCore>, icache: map<nat, Inode>, ninodes: nat, j: nat, k: nat)
    requires EntriesOk(es, icache, ninodes) && j < |es| && k < |es| && j != k && es[k].ref > 0
    ensures !Refers(es[j], es[k].dev, es[k].inum)
  {
    if j < k { assert es[j].ref > 0 ==> !Refers(es[k], es[j].dev, es[j].inum); }
  }

  /** Entry e becomes x, and the cached inodes change with it. */
  ghost predicate Updates(es: seq<InCore>, icache: map<nat, Inode>, ninodes: nat, e: nat, x: InCore,
                          icache': map<nat, Inode>) {
    && e < |es| && (x.ref > 0 && x.valid ==> x.dev == ROOTDEV && x.inum < ninodes)
    && (x.ref > 0 ==> forall j :: 0 <= j < |es| && j != e ==> !Refers(es[j], x.dev, x.inum))
    && (forall i :: i in icache' <==> (i in icache && !Caches(es[e], i)) || Caches(x, i))
    && (forall i :: i in icache' ==> icache'[i].kind != 0)
  }

  lemma UpdateOneEach(es: seq<InCore>, icache: map<nat, Inode>, ninodes: nat, e: nat, x: InCore,
                      icache': map<nat, Inode>)
    requires OneEach(es) && Updates(es, icache, ninodes, e, x, icache')
    ensures OneEach(es[e := x])
  {
  }

  lemma UpdateValid(es: seq<InCore>, icache: map<nat, Inode>, ninodes: nat, e: nat, x: InCore, icache': map<nat, Inode>)
    requires EntriesOk(es, icache, ninodes) && Updates(es, icache, ninodes, e, x, icache')
    ensures ValidOnes(es[e := x], icache', ninodes)
  {
    var es' := es[e := x];
    forall j | 0 <= j < |es'| && es'[j].ref > 0 && es'[j].valid
      ensures es'[j].dev == ROOTDEV && es'[j].inum < ninodes && es'[j].inum in icache'
    {
      if j == e {
        assert Caches(x, x.inum);
      } else {
        OneEntry(es, icache, ninodes, e, j);
        assert !Caches(es[e], es[j].inum);
      }
    }
  }

  lemma UpdateBacked(es: seq<InCore>, icache: map<nat, Inode>, ninodes: nat, e: nat, x: InCore,
                     icache': map<nat, Inode>)
    requires Backed(es, icache) && Updates(es, icache, ninodes, e, x, icache')
    ensures Backed(es[e := x], icache')
  {
    var es' := es[e := x];
    forall i | i in icache' ensures exists j :: 0 <= j < |es'| && Caches(es'[j], i) {
      if Caches(x, i) {
        assert Caches(es'[e], i);
      } else {
        var j :| 0 <= j < |es| && Caches(es[j], i);
        assert Caches(es'[j], i);
      }
    }
  }

  /** One entry changes its count or validity, or an unreferenced one takes an inode that no entry holds. */
  lemma EntryUpdate(es: seq<InCore>, icache: map<nat, Inode>, ninodes: nat, e: nat, x: InCore, icache': map<nat, Inode>)
    requires EntriesOk(es, icache, ninodes) && Updates(es, icache, ninodes, e, x, icache')
    ensures EntriesOk(es[e := x], icache', ninodes)
  {
    hide OneEach, ValidOnes, Backed;
    UpdateOneEach(es, icache, ninodes, e, x, icache');
    UpdateValid(es, icache, ninodes, e, x, icache');
    UpdateBacked(es, icache, ninodes, e, x, icache');
  }

  lemma CachedInside(es: seq<InCore>, icache: map<nat, Inode>, ninodes: nat, i: nat)
    requires EntriesOk(es, icache, ninodes) && i in icache
    ensures i < ninodes
  {
    var j :| 0 <= j < |es| && Caches(es[j], i);
  }

  function NewInode(kind: Short): Inode { Inode(kind, 0, 0, 0, 0, seq(NDIRECT + 1, k => 0)) }

  /** All is zero but the type. */
  predicate Blank(ip: Inode) {
    ip.major == ip.minor == ip.nlink == 0 && ip.size == 0 && forall k :: 0 <= k <= NDIRECT ==> ip.addrs[k] == 0
  }

  function WithInode(fs: Fs, i: nat, ip: Inode): Fs
    requires i < |fs.inodes|
  {
    fs.(inodes := fs.inodes[i := ip])
  }

  /** A free inode owns no block, so clearing it loses none. */
  lemma FreeInodeEmpty(fs: Fs, i: nat)
    requires i < |fs.inodes| && FileOk(fs, i) && fs.inodes[i].kind == 0
    ensures fs.inodes[i].addrs == NewInode(0).addrs && fs.inodes[i].size == 0
  {
    forall k | 0 <= k < NDIRECT ensures fs.inodes[i].addrs[k] == 0 {
      assert DataSlot(k) == k && Slot(fs, i, k) == 0;
    }
  }

  /** Giving an empty inode a new type, device numbers and link count keeps the invariant and every file. */
  lemma RetypeInv(fs: Fs, owner: map<nat, Place>, i: nat, ip: Inode)
    requires Inv(fs, owner) && i < |fs.inodes|
    requires fs.inodes[i].size == ip.size == 0 && fs.inodes[i].addrs == ip.addrs
    ensures Inv(WithInode(fs, i, ip), owner) && OthersSame(fs, WithInode(fs, i, ip), i)
  {
    var fs' := WithInode(fs, i, ip);
    forall j: nat, k: nat | j < |fs.inodes| && k < SLOTS ensures Slot(fs', j, k) == Slot(fs, j, k) {
    }
    assert FileOk(fs, i);
    forall j: nat | j < |fs.inodes| ensures FileOk(fs', j) {
      assert FileOk(fs, j);
    }
  }

  /** iput frees inode i: its blocks, all of them and no others, are free, and so is the inode. */
  ghost predicate Released(fs: Fs, fs': Fs, i: nat) {
    && i < |fs.inodes| && fs'.inodes == fs.inodes[i := Emptied(fs.inodes[i]).(kind := 0)]
    && |fs'.used| == |fs.used| && OthersSame(fs, fs', i)
    && forall b :: 0 <= b < |fs.used| ==> (fs'.used[b] <==> fs.used[b] && b !in OwnedBy(fs, i))
  }

  lemma FreshShows(sb: Super, store: seq<Block>, icache: map<nat, Inode>, fs: Fs, i: nat, ip: Inode)
    requires Shows(sb, store, icache, fs) && SyncedBut(sb, store, fs, sb.ninodes) && i < sb.ninodes && i !in icache
    ensures var store' := store[sb.IBlock(i) := PutInode(store[sb.IBlock(i)], i % IPB, ip)];
      Shows(sb, store', icache, WithInode(fs, i, ip)) && SyncedBut(sb, store', WithInode(fs, i, ip), sb.ninodes)
  {
    var c, f := icache[i := ip], WithInode(fs, i, ip);
    CacheShows(sb, store, icache, fs, i, ip);
    assert SyncedBut(sb, store, f, i);
    PutInodeShows(sb, store, c, f, i);
  }

  /** Dropping or loading a cached copy that agrees with the disk shows the same file system. */
  lemma RecacheShows(sb: Super, store: seq<Block>, icache: map<nat, Inode>, fs: Fs, icache': map<nat, Inode>)
    requires Shows(sb, store, icache, fs) && SyncedBut(sb, store, fs, sb.ninodes)
    requires forall i: nat :: i < sb.ninodes && i in icache' ==> icache'[i] == fs.inodes[i]
    ensures Shows(sb, store, icache', fs)
  {
  }

  class Inodes {
    const disk: FileSystem
    var entries: seq<InCore>

    ghost predicate Valid()
      reads this, disk
    {
      disk.Valid() && EntriesOk(entries, disk.icache, disk.sb.ninodes)
    }

    constructor (disk: FileSystem)
      requires disk.Valid() && disk.icache == map[]
      ensures Valid() && this.disk == disk && forall j :: 0 <= j < NINODE ==> entries[j].ref == 0
    {
      this.disk := disk;
      entries := seq(NINODE, j => InCore(0, 0, 0, false));
    }

    /** The entry of the inode, with one more reference, or else a free entry; None where the kernel panics. */
    method Iget(dev: nat, inum: nat) returns (r: Option<nat>)
      requires Valid()
      modifies this`entries
      ensures r.None? <==> forall j :: 0 <= j < |old(entries)| ==>
        old(entries)[j].ref > 0 && !Refers(old(entries)[j], dev, inum)
      ensures r.None? ==> entries == old(entries)
      ensures r.Some? ==> Valid() && r.value < |old(entries)|
      ensures r.Some? ==> var e := old(entries)[r.value];
        && (e.ref > 0 ==> Refers(e, dev, inum))
        && (e.ref == 0 ==> forall j :: 0 <= j < |old(entries)| ==> !Refers(old(entries)[j], dev, inum))
        && entries == old(entries)[r.value := if e.ref > 0 then e.(ref := e.ref + 1) else InCore(dev, inum, 1, false)]
    {
      hide OneEach, ValidOnes, Backed, Shows, SyncedBut, Covered, Own, Inv, Updates;
      var empty := NINODE;
      var j := 0;
      while j < NINODE
        invariant 0 <= j <= NINODE && entries == old(entries)
        invariant forall k :: 0 <= k < j ==> !Refers(entries[k], dev, inum)
        invariant empty == NINODE ==> forall k :: 0 <= k < j ==> entries[k].ref > 0
        invariant empty != NINODE ==> 0 <= empty < j && entries[empty].ref == 0
      {
        var e := entries[j];
        if e.ref > 0 && e.dev == dev && e.inum == inum {
          EntryRaised(entries, disk.icache, disk.sb.ninodes, j);
          entries := entries[j := e.(ref := e.ref + 1)];
          return Some(j);
        }
        if empty == NINODE && e.ref == 0 { empty := j; }
        j := j + 1;
      }
      if empty == NINODE { return None; }
      EntryTaken(entries, disk.icache, disk.sb.ninodes, empty, dev, inum);
      entries := entries[empty := InCore(dev, inum, 1, false)];
      r := Some(empty);
    }

    /** Reads the inode from disk unless it is cached; false where the kernel panics. */
    method Ilock(e: nat) returns (ok: bool)
      requires Valid() && e < |entries|
      requires entries[e].ref > 0 ==> entries[e].dev == ROOTDEV && entries[e].inum < disk.sb.ninodes
      modifies this`entries, disk`icache
      ensures ok <==> old(entries)[e].ref > 0 && disk.fs.inodes[old(entries)[e].inum].kind != 0
      ensures ok ==> Valid() && entries == old(entries)[e := old(entries)[e].(valid := true)]
      ensures ok ==> disk.icache == old(disk.icache)[entries[e].inum := disk.fs.inodes[entries[e].inum]]
    {
      var x := entries[e];
      if x.ref < 1 { return false; }
      if x.valid {
        CachedIs(disk.sb, disk.store, disk.icache, disk.fs, x.inum);
        assert disk.icache == disk.icache[x.inum := disk.fs.inodes[x.inum]];
        assert entries == entries[e := x.(valid := true)];
        return true;
      }
      var ip := DiskInode(disk.sb, disk.store, x.inum);
      if ip.kind == 0 { return false; }
      RecacheShows(disk.sb, disk.store, disk.icache, disk.fs, disk.icache[x.inum := ip]);
      EntryFilled(entries, disk.icache, disk.sb.ninodes, e, ip);
      disk.icache := disk.icache[x.inum := ip];
      entries := entries[e := x.(valid := true)];
      ok := true;
    }

    /** itrunc, then the type is cleared and the inode written back. */
    method FreeInode(i: nat)
      requires disk.Valid() && i in disk.icache && i < disk.sb.ninodes
      modifies disk`store, disk`icache, disk`fs, disk`owner, disk`logged, disk`writes
      ensures disk.Valid() && Released(old(disk.fs), disk.fs, i)
      ensures disk.fs.inodes[i].kind == 0 && disk.fs.inodes[i].size == 0 && FileBytes(disk.fs, disk.owner, i) == []
      ensures disk.icache.Keys == old(disk.icache).Keys
    {
      ghost var fs0 := disk.fs;
      disk.Itrunc(i);
      ghost var fs1 := disk.fs;
      CachedIs(disk.sb, disk.store, disk.icache, disk.fs, i);
      disk.SetCached(i, disk.icache[i].(kind := 0));
      disk.Iupdate(i);
      ReleasedInv(fs0, fs1, disk.owner, i);
    }

    /** Drops a reference; the last one to an inode without links frees the inode and its blocks. */
    method Iput(e: nat) returns (freed: bool)
      requires Valid() && e < |entries| && entries[e].ref > 0
      modifies this`entries, disk`store, disk`icache, disk`fs, disk`owner, disk`logged, disk`writes
      ensures Valid() && |entries| == |old(entries)|
      ensures var x := old(entries)[e];
        && (freed <==> x.valid && x.ref == 1 && old(disk.fs).inodes[x.inum].nlink == 0)
        && (freed ==> Released(old(disk.fs), disk.fs, x.inum) && disk.fs.inodes[x.inum].kind == 0)
        && (freed ==> disk.fs.inodes[x.inum].size == 0 && FileBytes(disk.fs, disk.owner, x.inum) == [])
        && (!freed ==> disk.fs == old(disk.fs) && disk.store == old(disk.store))
        && entries == old(entries)[e := x.(ref := x.ref - 1, valid := x.valid && !freed)]
        && disk.icache.Keys == old(disk.icache).Keys - (if x.ref == 1 && x.valid then {x.inum} else {})
    {
      hide Covered, Shows, SyncedBut, Own, Inv, Released, EntriesOk;
      var x := entries[e];
      EntryKnown(entries, disk.icache, disk.sb.ninodes, e);
      if x.valid { CachedIs(disk.sb, disk.store, disk.icache, disk.fs, x.inum); }
      freed := x.valid && disk.icache[x.inum].nlink == 0 && x.ref == 1;
      ghost var fs0, icache0 := disk.fs, disk.icache;
      CachedAre(disk);
      if freed { FreeInode(x.inum); }
      if x.ref == 1 && x.valid { Forget(x.inum); }
      Dropped(entries, icache0, fs0, disk, e, freed);
      entries := entries[e := x.(ref := x.ref - 1, valid := x.valid && !freed)];
    }

    /** An entry without references no longer counts as cached. */
    method Forget(i: nat)
      requires disk.Valid() && i < disk.sb.ninodes
      modifies disk`icache
      ensures disk.Valid() && disk.icache == old(disk.icache) - {i}
    {
      RecacheShows(disk.sb, disk.store, disk.icache, disk.fs, disk.icache - {i});
      disk.icache := disk.icache - {i};
    }

    /** Takes the first free inode after inode 0; None where the kernel panics. */
    method FindFreeInode() returns (r: Option<nat>)
      requires disk.Valid()
      ensures r.None? ==> forall i: nat :: 1 <= i < disk.sb.ninodes ==> disk.fs.inodes[i].kind != 0
      ensures r.Some? ==> 1 <= r.value < disk.sb.ninodes && disk.fs.inodes[r.value].kind == 0
      ensures r.Some? ==> forall i: nat :: 1 <= i < r.value ==> disk.fs.inodes[i].kind != 0
    {
      var inum := 1;
      while inum < disk.sb.ninodes
        invariant 1 <= inum && forall i: nat :: 1 <= i < inum && i < disk.sb.ninodes ==> disk.fs.inodes[i].kind != 0
      {
        assert disk.fs.inodes[inum] == DiskInode(disk.sb, disk.store, inum);
        if DiskInode(disk.sb, disk.store, inum).kind == 0 { return Some(inum); }
        inum := inum + 1;
      }
      r := None;
    }

    /** Allocates an inode of the given type and returns a referenced entry for it. */
    method Ialloc(kind: Short) returns (r: Option<nat>, ghost i: nat)
      requires Valid()
      modifies this`entries, disk`store, disk`fs, disk`logged, disk`writes
      ensures r.Some? ==> Valid() && r.value < |entries| && Refers(entries[r.value], ROOTDEV, i)
      ensures r.Some? ==> 1 <= i < disk.sb.ninodes && old(disk.fs).inodes[i].kind == 0
      ensures r.Some? ==> forall j: nat :: 1 <= j < i ==> old(disk.fs).inodes[j].kind != 0
      ensures r.Some? ==> OthersSame(old(disk.fs), disk.fs, i)
      ensures r.Some? ==> disk.fs == old(disk.fs).(inodes := old(disk.fs).inodes[i := disk.fs.inodes[i]])
      ensures r.Some? ==> disk.fs.inodes[i].kind == kind && Blank(disk.fs.inodes[i])
      ensures r.Some? ==> FileBytes(disk.fs, disk.owner, i) == []
      ensures r.Some? ==> DiskInode(disk.sb, disk.store, i) == disk.fs.inodes[i]
      ensures r.Some? ==> disk.logged == old(disk.logged) + {disk.sb.IBlock(i)}
      ensures r.None? ==>
        || (forall j: nat :: 1 <= j < disk.sb.ninodes ==> old(disk.fs).inodes[j].kind != 0)
        || (forall j :: 0 <= j < |entries| ==> entries[j].ref > 0)
    {
      var inum := FindFreeInode();
      if inum.None? { i := 0; return None, 0; }
      i := inum.value;
      Claim(inum.value, kind);
      r := Iget(ROOTDEV, inum.value);
    }

    /** Clears a free inode on disk and gives it a type. */
    method Claim(i: nat, kind: Short)
      requires Valid() && i < disk.sb.ninodes && disk.fs.inodes[i].kind == 0
      modifies disk`store, disk`fs, disk`logged, disk`writes
      ensures Valid() && OthersSame(old(disk.fs), disk.fs, i)
      ensures disk.fs == old(disk.fs).(inodes := old(disk.fs).inodes[i := disk.fs.inodes[i]])
      ensures disk.fs.inodes[i].kind == kind && Blank(disk.fs.inodes[i]) && FileBytes(disk.fs, disk.owner, i) == []
      ensures DiskInode(disk.sb, disk.store, i) == disk.fs.inodes[i]
      ensures disk.logged == old(disk.logged) + {disk.sb.IBlock(i)}
    {
      var block := disk.sb.IBlock(i);
      assert FileOk(disk.fs, i);
      FreeInodeEmpty(disk.fs, i);
      RetypeInv(disk.fs, disk.owner, i, NewInode(kind));
      FreeNotCached(entries, disk, i);
      FreshShows(disk.sb, disk.store, disk.icache, disk.fs, i, NewInode(kind));
      var data := PutInode(disk.store[block], i % IPB, NewInode(kind));
      CoveredMore(disk.sb, disk.base, disk.store, disk.logged, disk.writes, block, data);
      disk.writes := disk.writes + [BlockWrite(block, data)];
      disk.store := disk.store[block := data];
      disk.fs := WithInode(disk.fs, i, NewInode(kind));
      disk.logged := disk.logged + {block};
    }
  }

  lemma ReleasedInv(fs0: Fs, fs1: Fs, owner: map<nat, Place>, i: nat)
    requires Inv(fs1, owner) && Truncated(fs0, fs1, i) && OthersSame(fs0, fs1, i)
    ensures var fs := WithInode(fs1, i, fs1.inodes[i].(kind := 0));
      Inv(fs, owner) && Released(fs0, fs, i)
  {
    hide Inv, OwnedBy, SameFile;
    RetypeInv(fs1, owner, i, fs1.inodes[i].(kind := 0));
    OthersSameTrans(fs0, fs1, WithInode(fs1, i, fs1.inodes[i].(kind := 0)), i);
  }

  lemma EntryKnown(es: seq<InCore>, icache: map<nat, Inode>, ninodes: nat, e: nat)
    requires EntriesOk(es, icache, ninodes) && e < |es| && es[e].ref > 0
    ensures es[e].valid ==> es[e].dev == ROOTDEV && es[e].inum < ninodes && es[e].inum in icache
  {
  }

  /** A free inode is not cached, because ilock panics on one and iput forgets the one it frees. */
  lemma FreeNotCached(es: seq<InCore>, disk: FileSystem, i: nat)
    requires disk.Valid() && EntriesOk(es, disk.icache, disk.sb.ninodes)
    requires i < disk.sb.ninodes && disk.fs.inodes[i].kind == 0
    ensures i !in disk.icache
  {
    CachedAre(disk);
  }

  /** iput's last step: one reference less, and the inode is forgotten with the last. */
  lemma Dropped(es: seq<InCore>, icache: map<nat, Inode>, fs: Fs, disk: FileSystem, e: nat, freed: bool)
    requires disk.Valid() && EntriesOk(es, icache, disk.sb.ninodes) && e < |es| && es[e].ref > 0
    requires if freed then es[e].ref == 1 && es[e].valid && Released(fs, disk.fs, es[e].inum) else disk.fs == fs
    requires |fs.inodes| == disk.sb.ninodes && forall i :: i in icache && i < |fs.inodes| ==> icache[i] == fs.inodes[i]
    requires disk.icache.Keys == icache.Keys - (if es[e].ref == 1 && es[e].valid then {es[e].inum} else {})
    ensures EntriesOk(es[e := es[e].(ref := es[e].ref - 1, valid := es[e].valid && !freed)], disk.icache,
                      disk.sb.ninodes)
  {
    hide Inv, Own;
    forall i | i in disk.icache ensures disk.icache[i].kind != 0 {
      CachedInside(es, icache, disk.sb.ninodes, i);
      CachedIs(disk.sb, disk.store, disk.icache, disk.fs, i);
      assert disk.fs.inodes[i] == fs.inodes[i] == icache[i];
    }
    EntryLowered(es, icache, disk.sb.ninodes, e, freed, disk.icache);
  }

  lemma EntryLowered(es: seq<InCore>, icache: map<nat, Inode>, ninodes: nat, e: nat, freed: bool,
                     icache': map<nat, Inode>)
    requires EntriesOk(es, icache, ninodes) && e < |es| && es[e].ref > 0 && (freed ==> es[e].ref == 1)
    requires icache'.Keys == icache.Keys - (if es[e].ref == 1 && es[e].valid then {es[e].inum} else {})
    requires forall i :: i in icache' ==> icache'[i].kind != 0
    ensures EntriesOk(es[e := es[e].(ref := es[e].ref - 1, valid := es[e].valid && !freed)], icache', ninodes)
  {
    forall j | 0 <= j < |es| && j != e ensures !Refers(es[j], es[e].dev, es[e].inum) {
      OneEntry(es, icache, ninodes, j, e);
    }
    EntryUpdate(es, icache, ninodes, e, es[e].(ref := es[e].ref - 1, valid := es[e].valid && !freed), icache');
  }

  lemma EntryRaised(es: seq<InCore>, icache: map<nat, Inode>, ninodes: nat, e: nat)
    requires EntriesOk(es, icache, ninodes) && e < |es| && es[e].ref > 0
    ensures EntriesOk(es[e := es[e].(ref := es[e].ref + 1)], icache, ninodes)
  {
    forall j | 0 <= j < |es| && j != e ensures !Refers(es[j], es[e].dev, es[e].inum) {
      OneEntry(es, icache, ninodes, j, e);
    }
    EntryUpdate(es, icache, ninodes, e, es[e].(ref := es[e].ref + 1), icache);
  }

  lemma EntryTaken(es: seq<InCore>, icache: map<nat, Inode>, ninodes: nat, e: nat, dev: nat, inum: nat)
    requires EntriesOk(es, icache, ninodes) && e < |es| && es[e].ref == 0
    requires forall j :: 0 <= j < |es| ==> !Refers(es[j], dev, inum)
    ensures EntriesOk(es[e := InCore(dev, inum, 1, false)], icache, ninodes)
  {
    hide OneEach, ValidOnes, Backed;
    KindsOk(es, icache, ninodes);
    EntryUpdate(es, icache, ninodes, e, InCore(dev, inum, 1, false), icache);
  }

  lemma KindsOk(es: seq<InCore>, icache: map<nat, Inode>, ninodes: nat)
    requires EntriesOk(es, icache, ninodes)
    ensures forall i :: i in icache ==> icache[i].kind != 0
  {
  }

  lemma EntryFilled(es: seq<InCore>, icache: map<nat, Inode>, ninodes: nat, e: nat, ip: Inode)
    requires EntriesOk(es, icache, ninodes) && e < |es| && es[e].ref > 0 && es[e].dev == ROOTDEV && es[e].inum < ninodes
    requires ip.kind != 0 && !es[e].valid
    ensures EntriesOk(es[e := es[e].(valid := true)], icache[es[e].inum := ip], ninodes)
  {
    forall j | 0 <= j < |es| && j != e ensures !Refers(es[j], es[e].dev, es[e].inum) {
      OneEntry(es, icache, ninodes, j, e);
    }
    EntryUpdate(es, icache, ninodes, e, es[e].(valid := true), icache[es[e].inum := ip]);
  }

  lemma CachedAre(disk: FileSystem)
    requires disk.Valid()
    ensures |disk.fs.inodes| == disk.sb.ninodes
    ensures forall i :: i in disk.icache && i < |disk.fs.inodes| ==> disk.icache[i] == disk.fs.inodes[i]
  {
  }
}
