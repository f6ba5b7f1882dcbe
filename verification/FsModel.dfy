/**
 * What the blocks of a file system mean: which are in use, which inode owns each, and the byte sequence
 * of every file.  The values here are read off the disk and the inode cache by FsCode.
 */
module FsModel {
  import opened Common
  import opened Blocks

  const NDIRECT := 12
  const NINDIRECT := 128
  const MAXFILE := 140

  type Short = x: int | 0 <= x < 0x1_0000
  type Addrs = s: seq<Uint> | |s| == NDIRECT + 1 witness seq(NDIRECT + 1, i => 0)

  datatype Inode = Inode(kind: Short, major: Short, minor: Short, nlink: Short, size: Uint, addrs: Addrs)

  /**
   * used is the free bitmap, inodes the inode table (the cached copy where there is one) and data the
   * blocks from dataStart on, by block number.
   */
  datatype Fs = Fs(dataStart: nat, used: seq<bool>, inodes: seq<Inode>, data: map<nat, Block>)

  /** One block address: slots 0..11 are direct, 12 is the indirect table, 13.. are its entries. */
  datatype Place = Place(inum: nat, slot: nat)

  const SLOTS := NDIRECT + 1 + NINDIRECT

  ghost predicate Wf(fs: Fs) {
    && 0 < fs.dataStart <= |fs.used| <= UINT_LIMIT
    && forall b :: b in fs.data <==> fs.dataStart <= b < |fs.used|
  }

  function Slot(fs: Fs, i: nat, k: nat): nat
    requires i < |fs.inodes| && k < SLOTS
  {
    var addrs := fs.inodes[i].addrs;
    if k <= NDIRECT then addrs[k]
    else if addrs[NDIRECT] in fs.data then fs.data[addrs[NDIRECT]].words[k - NDIRECT - 1]
    else 0
  }

  /** The slot that bmap uses for file block n. */
  function DataSlot(n: nat): nat {
    if n < NDIRECT then n else n + 1
  }

  /** The number of blocks that size bytes occupy. */
  function BlocksFor(size: nat): nat {
    (size + BSIZE - 1) / BSIZE
  }

  /** The number of blocks that a range of n bytes at off touches. */
  function BlocksTouched(off: nat, n: nat): nat {
    if n == 0 then 0 else BlocksFor(off + n) - off / BSIZE
  }

  /** n bytes on from off is where writei starts a turn. */
  predicate OnBoundary(off: nat, n: nat) {
    0 < n ==> (off + n) % BSIZE == 0
  }

  lemma TouchMore(off: nat, n: nat, k: nat)
    requires 0 < k <= BSIZE - (off + n) % BSIZE && OnBoundary(off, n)
    ensures BlocksTouched(off, n + k) == BlocksTouched(off, n) + 1
    ensures k == BSIZE - (off + n) % BSIZE ==> OnBoundary(off, n + k)
  {
  }

  // ---- block ownership ----

  /** owner names the one place that holds each allocated data block; everything else is free. */
  ghost predicate Own(fs: Fs, owner: map<nat, Place>) {
    && (forall b :: b in owner ==>
          fs.dataStart <= b < |fs.used| && fs.used[b] && IsPlace(fs, owner[b])
          && Slot(fs, owner[b].inum, owner[b].slot) == b)
    && (forall i: nat, k: nat :: i < |fs.inodes| && k < SLOTS && Slot(fs, i, k) != 0 ==>
          Slot(fs, i, k) in owner && owner[Slot(fs, i, k)] == Place(i, k))
    && (forall b :: 0 <= b < |fs.used| ==> (fs.used[b] <==> b < fs.dataStart || b in owner))
  }

  ghost predicate IsPlace(fs: Fs, p: Place) {
    p.inum < |fs.inodes| && p.slot < SLOTS
  }

  /** Exactly the first m blocks of file i are mapped. */
  ghost predicate MappedData(fs: Fs, i: nat, m: nat)
    requires i < |fs.inodes|
  {
    m <= MAXFILE && forall n: nat :: n < MAXFILE ==> (Slot(fs, i, DataSlot(n)) != 0 <==> n < m)
  }

  /** The indirect table exists exactly when a mapped block needs it. */
  ghost predicate Mapped(fs: Fs, i: nat, m: nat)
    requires i < |fs.inodes|
  {
    MappedData(fs, i, m) && (fs.inodes[i].addrs[NDIRECT] != 0 <==> NDIRECT < m)
  }

  ghost predicate FileOk(fs: Fs, i: nat)
    requires i < |fs.inodes|
  {
    var ip := fs.inodes[i];
    ip.size <= MAXFILE * BSIZE && Mapped(fs, i, BlocksFor(ip.size)) && (ip.kind == 0 ==> ip.size == 0)
  }

  ghost predicate Inv(fs: Fs, owner: map<nat, Place>) {
    Wf(fs) && Own(fs, owner) && forall i: nat :: i < |fs.inodes| ==> FileOk(fs, i)
  }

  // ---- bytes ----

  ghost predicate HasByte(fs: Fs, i: nat, j: nat) {
    i < |fs.inodes| && j < MAXFILE * BSIZE && Slot(fs, i, DataSlot(j / BSIZE)) in fs.data
  }

  /** Byte j of file i. */
  function ByteAt(fs: Fs, i: nat, j: nat): Byte
    requires HasByte(fs, i, j)
  {
    Bytes(fs.data[Slot(fs, i, DataSlot(j / BSIZE))])[j % BSIZE]
  }

  /** s is the contents of file i. */
  ghost predicate Contents(fs: Fs, i: nat, s: seq<Byte>) {
    && i < |fs.inodes| && |s| == fs.inodes[i].size
    && Holds(fs, i, s)
  }

  /** Block n of file i is the same disk block with the same contents in both. */
  ghost predicate SameBlock(fs: Fs, fs': Fs, i: nat, n: nat) {
    && i < |fs.inodes| && i < |fs'.inodes| && n < MAXFILE
    && var a := Slot(fs, i, DataSlot(n));
       Slot(fs', i, DataSlot(n)) == a && (a in fs.data ==> a in fs'.data && fs'.data[a] == fs.data[a])
  }

  /** File i has the same inode, block list and bytes in both. */
  ghost predicate SameFile(fs: Fs, fs': Fs, i: nat) {
    && i < |fs.inodes| == |fs'.inodes| && fs'.inodes[i] == fs.inodes[i]
    && (forall k: nat :: k < SLOTS ==> Slot(fs', i, k) == Slot(fs, i, k))
    && (forall k: nat :: k < SLOTS && k != NDIRECT && Slot(fs, i, k) in fs.data ==>
          Slot(fs, i, k) in fs'.data && fs'.data[Slot(fs, i, k)] == fs.data[Slot(fs, i, k)])
  }

  // ---- the updates ----

  function WithAddr(ip: Inode, k: nat, a: Uint): Inode
    requires k <= NDIRECT
  {
    ip.(addrs := ip.addrs[k := a])
  }

  /** balloc: block b is taken and zeroed. */
  function Alloc(fs: Fs, b: nat): Fs
    requires b < |fs.used|
  {
    fs.(used := fs.used[b := true], data := fs.data[b := ZeroBlock()])
  }

  /** bmap: a fresh block b becomes direct slot or table k of inode i. */
  function AllocAddr(fs: Fs, i: nat, k: nat, b: nat): Fs
    requires i < |fs.inodes| && k <= NDIRECT && b < |fs.used| && b < UINT_LIMIT
  {
    Alloc(fs, b).(inodes := fs.inodes[i := WithAddr(fs.inodes[i], k, b)])
  }

  /** bmap: a fresh block b becomes entry e of table t. */
  function AllocEntry(fs: Fs, t: nat, e: nat, b: nat): Fs
    requires t in fs.data && e < NINDIRECT && b < |fs.used| && b < UINT_LIMIT
  {
    fs.(used := fs.used[b := true],
        data := fs.data[b := ZeroBlock()][t := Block(fs.data[t].words[e := b])])
  }

  /** log_write of file data: block a gets new contents. */
  function Store(fs: Fs, a: nat, block: Block): Fs
    requires a in fs.data
  {
    fs.(data := fs.data[a := block])
  }

  ghost predicate OthersSame(fs: Fs, fs': Fs, i: nat) {
    |fs.inodes| == |fs'.inodes| && forall j: nat :: j < |fs.inodes| && j != i ==> SameFile(fs, fs', j)
  }

  /** The only block address that changed is slot k of inode i, which was empty and now holds b. */
  ghost predicate OneSlot(fs: Fs, fs': Fs, i: nat, k: nat, b: nat) {
    && |fs.inodes| == |fs'.inodes|
    && forall j: nat, l: nat :: j < |fs.inodes| && l < SLOTS ==>
         Slot(fs', j, l) == if j == i && l == k then b else Slot(fs, j, l)
  }

  lemma AllocAddrSlots(fs: Fs, owner: map<nat, Place>, i: nat, k: nat, b: nat)
    requires Wf(fs) && Own(fs, owner) && i < |fs.inodes| && k <= NDIRECT
    requires b < |fs.used| && !fs.used[b] && fs.inodes[i].addrs[k] == 0
    ensures OneSlot(fs, AllocAddr(fs, i, k, b), i, k, b)
  {
    forall j: nat, l: nat | j < |fs.inodes| && l < SLOTS
      ensures Slot(AllocAddr(fs, i, k, b), j, l) == if j == i && l == k then b else Slot(fs, j, l)
    {
      assert fs.inodes[j].addrs[NDIRECT] == Slot(fs, j, NDIRECT);
    }
  }

  lemma AllocAddrKeeps(fs: Fs, owner: map<nat, Place>, i: nat, k: nat, b: nat)
    requires Wf(fs) && Own(fs, owner) && i < |fs.inodes| && k <= NDIRECT
    requires b < |fs.used| && !fs.used[b] && fs.inodes[i].addrs[k] == 0
    ensures var fs' := AllocAddr(fs, i, k, b); Wf(fs') && Own(fs', owner[b := Place(i, k)]) && OthersSame(fs, fs', i)
  {
    AllocAddrSlots(fs, owner, i, k, b);
  }

  /** A direct block extends the mapped prefix; a table alone does not. */
  lemma AllocAddrMaps(fs: Fs, owner: map<nat, Place>, i: nat, k: nat, b: nat, m: nat)
    requires Wf(fs) && Own(fs, owner) && i < |fs.inodes| && k <= NDIRECT
    requires b < |fs.used| && !fs.used[b] && fs.inodes[i].addrs[k] == 0
    ensures var fs' := AllocAddr(fs, i, k, b);
      && (MappedData(fs, i, m) && k == NDIRECT ==> MappedData(fs', i, m))
      && (MappedData(fs, i, m) && k == m < NDIRECT ==> MappedData(fs', i, m + 1))
      && forall n: nat :: n < MAXFILE && DataSlot(n) != k ==> SameBlock(fs, fs', i, n)
  {
    AllocAddrSlots(fs, owner, i, k, b);
  }

  lemma AllocEntrySlots(fs: Fs, owner: map<nat, Place>, i: nat, e: nat, b: nat)
    requires Wf(fs) && Own(fs, owner) && i < |fs.inodes| && e < NINDIRECT
    requires b < |fs.used| && !fs.used[b] && fs.inodes[i].addrs[NDIRECT] in fs.data
    ensures OneSlot(fs, AllocEntry(fs, fs.inodes[i].addrs[NDIRECT], e, b), i, NDIRECT + 1 + e, b)
  {
    assert fs.inodes[i].addrs[NDIRECT] == Slot(fs, i, NDIRECT);
    forall j: nat, l: nat | j < |fs.inodes| && l < SLOTS
      ensures Slot(AllocEntry(fs, fs.inodes[i].addrs[NDIRECT], e, b), j, l)
           == if j == i && l == NDIRECT + 1 + e then b else Slot(fs, j, l)
    {
      assert fs.inodes[j].addrs[NDIRECT] == Slot(fs, j, NDIRECT);
    }
  }

  /** A free block that becomes the one changed address gets that place for its owner. */
  lemma OneSlotOwn(fs: Fs, fs': Fs, owner: map<nat, Place>, i: nat, k: nat, b: nat)
    requires Wf(fs) && Own(fs, owner) && OneSlot(fs, fs', i, k, b)
    requires i < |fs.inodes| && k < SLOTS && Slot(fs, i, k) == 0
    requires b < |fs.used| && !fs.used[b] && fs'.used == fs.used[b := true] && fs'.dataStart == fs.dataStart
    ensures Own(fs', owner[b := Place(i, k)]) && fs.dataStart <= b
  {
    hide Slot;
  }

  lemma AllocEntryOwn(fs: Fs, owner: map<nat, Place>, i: nat, e: nat, b: nat)
    requires Wf(fs) && Own(fs, owner) && i < |fs.inodes| && e < NINDIRECT
    requires b < |fs.used| && !fs.used[b] && fs.inodes[i].addrs[NDIRECT] in fs.data
    requires Slot(fs, i, NDIRECT + 1 + e) == 0
    ensures var fs' := AllocEntry(fs, fs.inodes[i].addrs[NDIRECT], e, b);
      Wf(fs') && Own(fs', owner[b := Place(i, NDIRECT + 1 + e)])
  {
    hide Own, OneSlot;
    AllocEntrySlots(fs, owner, i, e, b);
    OneSlotOwn(fs, AllocEntry(fs, fs.inodes[i].addrs[NDIRECT], e, b), owner, i, NDIRECT + 1 + e, b);
  }

  lemma AllocEntryOthers(fs: Fs, owner: map<nat, Place>, i: nat, e: nat, b: nat)
    requires Wf(fs) && Own(fs, owner) && i < |fs.inodes| && e < NINDIRECT
    requires b < |fs.used| && !fs.used[b] && fs.inodes[i].addrs[NDIRECT] in fs.data
    ensures OthersSame(fs, AllocEntry(fs, fs.inodes[i].addrs[NDIRECT], e, b), i)
  {
    var t := fs.inodes[i].addrs[NDIRECT];
    assert t == Slot(fs, i, NDIRECT);
    AllocEntrySlots(fs, owner, i, e, b);
    forall j: nat | j < |fs.inodes| && j != i ensures SameFile(fs, AllocEntry(fs, t, e, b), j) {
      assert forall k: nat :: k < SLOTS ==> Slot(fs, j, k) != t;
    }
  }

  lemma AllocEntryMaps(fs: Fs, owner: map<nat, Place>, i: nat, e: nat, b: nat)
    requires Wf(fs) && Own(fs, owner) && i < |fs.inodes| && e < NINDIRECT
    requires b < |fs.used| && !fs.used[b] && fs.inodes[i].addrs[NDIRECT] in fs.data
    ensures var fs' := AllocEntry(fs, fs.inodes[i].addrs[NDIRECT], e, b);
      && (MappedData(fs, i, NDIRECT + e) ==> MappedData(fs', i, NDIRECT + e + 1))
      && forall n: nat :: n < MAXFILE && n != NDIRECT + e ==> SameBlock(fs, fs', i, n)
  {
    assert fs.inodes[i].addrs[NDIRECT] == Slot(fs, i, NDIRECT);
    AllocEntrySlots(fs, owner, i, e, b);
  }

  // ---- bmap ----

  /** The bits of the metadata blocks are set, so balloc never returns one. */
  ghost predicate MetaUsed(fs: Fs) {
    forall b :: 0 <= b < fs.dataStart && b < |fs.used| ==> fs.used[b]
  }

  /** What bmap relies on when it is asked for block n of inode i. */
  ghost predicate Ready(fs: Fs, i: nat, n: nat) {
    && i < |fs.inodes| && n < MAXFILE && MetaUsed(fs)
    && (fs.inodes[i].addrs[NDIRECT] == 0
        || (fs.inodes[i].addrs[NDIRECT] in fs.data && fs.inodes[i].addrs[NDIRECT] < |fs.used|
            && fs.used[fs.inodes[i].addrs[NDIRECT]]))
    && (Slot(fs, i, DataSlot(n)) == 0 || Slot(fs, i, DataSlot(n)) in fs.data)
    && (Slot(fs, i, DataSlot(n)) == 0 || Slot(fs, i, DataSlot(n)) != fs.inodes[i].addrs[NDIRECT])
  }

  lemma OwnReady(fs: Fs, owner: map<nat, Place>, i: nat, n: nat)
    requires Wf(fs) && Own(fs, owner) && i < |fs.inodes| && n < MAXFILE
    ensures Ready(fs, i, n)
  {
    assert fs.inodes[i].addrs[NDIRECT] == Slot(fs, i, NDIRECT);
  }

  /** A free block that an allocation may take. */
  predicate Free(fs: Fs, b: nat) {
    b < |fs.used| && b < UINT_LIMIT && !fs.used[b]
  }

  ghost predicate Full(fs: Fs) {
    forall b :: 0 <= b < |fs.used| ==> fs.used[b]
  }

  /** What bmap does for block n of inode i: nothing, or up to two allocations; b is what it returns. */
  datatype Growth = Found | Direct(b: nat) | Entry(b: nat) | TableAndEntry(t: nat, b: nat)

  ghost predicate CanGrow(fs: Fs, i: nat, n: nat, g: Growth) {
    && i < |fs.inodes| && n < MAXFILE
    && var ip := fs.inodes[i];
       match g
       case Found => Slot(fs, i, DataSlot(n)) != 0
       case Direct(b) => n < NDIRECT && ip.addrs[n] == 0 && Free(fs, b)
       case Entry(b) =>
         NDIRECT <= n && ip.addrs[NDIRECT] in fs.data && Slot(fs, i, DataSlot(n)) == 0 && Free(fs, b)
       case TableAndEntry(t, b) =>
         NDIRECT <= n && ip.addrs[NDIRECT] == 0 && Free(fs, t) && t in fs.data
         && Free(AllocAddr(fs, i, NDIRECT, t), b)
  }

  ghost function Grow(fs: Fs, i: nat, n: nat, g: Growth): Fs
    requires CanGrow(fs, i, n, g)
  {
    match g
    case Found => fs
    case Direct(b) => AllocAddr(fs, i, n, b)
    case Entry(b) => AllocEntry(fs, fs.inodes[i].addrs[NDIRECT], n - NDIRECT, b)
    case TableAndEntry(t, b) => AllocEntry(AllocAddr(fs, i, NDIRECT, t), t, n - NDIRECT, b)
  }

  ghost function GrowOwner(owner: map<nat, Place>, i: nat, n: nat, g: Growth): map<nat, Place> {
    match g
    case Found => owner
    case Direct(b) => owner[b := Place(i, n)]
    case Entry(b) => owner[b := Place(i, n + 1)]
    case TableAndEntry(t, b) => owner[t := Place(i, NDIRECT)][b := Place(i, n + 1)]
  }

  /** bmap for block n of inode i had outcome g and returned a; a block that is there is found. */
  ghost predicate Grown(fs: Fs, owner: map<nat, Place>, fs': Fs, owner': map<nat, Place>, i: nat, n: nat, g: Growth,
                        a: nat) {
    && CanGrow(fs, i, n, g) && fs' == Grow(fs, i, n, g) && owner' == GrowOwner(owner, i, n, g)
    && i < |fs'.inodes| && a == Slot(fs', i, DataSlot(n)) && (Slot(fs, i, DataSlot(n)) != 0 ==> g == Found)
  }

  ghost function TableOf(fs: Fs, i: nat): set<nat>
    requires i < |fs.inodes|
  {
    if fs.inodes[i].addrs[NDIRECT] == 0 then {} else {fs.inodes[i].addrs[NDIRECT]}
  }

  /** bmap's block keeps its place when its contents change, and the table, once there, stays. */
  lemma StoreInSlot(fs: Fs, i: nat, n: nat, g: Growth, block: Block)
    requires Wf(fs) && Ready(fs, i, n) && CanGrow(fs, i, n, g)
    ensures var f := Grow(fs, i, n, g);
      var a := Slot(f, i, DataSlot(n));
      && a in f.data && a != 0
      && Slot(Store(f, a, block), i, DataSlot(n)) == a && TableOf(fs, i) <= TableOf(Store(f, a, block), i)
      && (n >= NDIRECT ==> f.inodes[i].addrs[NDIRECT] in f.data && f.inodes[i].addrs[NDIRECT] != 0)
  {
  }

  /** LoadTable: the table of inode i is t, which was there or is new. */
  ghost predicate TableLoaded(fs: Fs, owner: map<nat, Place>, fs': Fs, owner': map<nat, Place>, i: nat, t: nat) {
    && i < |fs.inodes|
    && if fs.inodes[i].addrs[NDIRECT] == 0 then
         Free(fs, t) && t in fs.data && fs' == AllocAddr(fs, i, NDIRECT, t) && owner' == owner[t := Place(i, NDIRECT)]
       else t == fs.inodes[i].addrs[NDIRECT] && fs' == fs && owner' == owner
  }

  /** LoadEntry: entry e of table t is a, which was there or is new. */
  ghost predicate EntryLoaded(fs: Fs, owner: map<nat, Place>, fs': Fs, owner': map<nat, Place>, i: nat, t: nat, e: nat,
                              a: nat) {
    && t in fs.data && e < NINDIRECT
    && if fs.data[t].words[e] == 0 then
         Free(fs, a) && fs' == AllocEntry(fs, t, e, a) && owner' == owner[a := Place(i, NDIRECT + 1 + e)]
       else a == fs.data[t].words[e] && fs' == fs && owner' == owner
  }

  lemma ReadyMeta(fs: Fs, i: nat, n: nat)
    requires Ready(fs, i, n)
    ensures i < |fs.inodes| && MetaUsed(fs)
  {
  }

  lemma TableUsable(fs: Fs, owner: map<nat, Place>, fs': Fs, owner': map<nat, Place>, i: nat, n: nat, t: nat)
    requires Ready(fs, i, n) && TableLoaded(fs, owner, fs', owner', i, t)
    ensures MetaUsed(fs') && t in fs'.data && t < |fs'.used| && fs'.used[t]
    ensures n >= NDIRECT && fs.inodes[i].addrs[NDIRECT] != 0 ==>
      Slot(fs, i, DataSlot(n)) == fs'.data[t].words[n - NDIRECT]
  {
  }

  lemma NoTableSlot(fs: Fs, i: nat, n: nat)
    requires Wf(fs) && i < |fs.inodes| && NDIRECT <= n < MAXFILE && fs.inodes[i].addrs[NDIRECT] == 0
    ensures Slot(fs, i, DataSlot(n)) == 0
  {
  }

  function IndirectGrowth(fs: Fs, fs1: Fs, i: nat, t: nat, e: nat, a: nat): Growth
    requires i < |fs.inodes| && t in fs1.data && e < NINDIRECT
  {
    if fs1.data[t].words[e] != 0 then Found
    else if fs.inodes[i].addrs[NDIRECT] != 0 then Entry(a) else TableAndEntry(t, a)
  }

  /** Loading the table and then the entry is what bmap does for an indirect block. */
  lemma IndirectGrows(fs: Fs, owner: map<nat, Place>, fs1: Fs, owner1: map<nat, Place>, fs2: Fs,
                      owner2: map<nat, Place>, i: nat, n: nat, t: nat, a: nat)
    requires Wf(fs) && Ready(fs, i, n) && NDIRECT <= n && TableLoaded(fs, owner, fs1, owner1, i, t)
    requires t in fs1.data && EntryLoaded(fs1, owner1, fs2, owner2, i, t, n - NDIRECT, a)
    ensures Grown(fs, owner, fs2, owner2, i, n, IndirectGrowth(fs, fs1, i, t, n - NDIRECT, a), a)
    ensures |fs2.inodes| == |fs.inodes| && a == Slot(fs2, i, DataSlot(n)) && fs2.inodes[i].addrs[NDIRECT] == t
  {
  }

  lemma TableIsZero(fs: Fs, owner: map<nat, Place>, i: nat, t: nat, e: nat)
    requires Wf(fs) && Own(fs, owner) && i < |fs.inodes| && e < NINDIRECT
    requires fs.inodes[i].addrs[NDIRECT] == 0 && Free(fs, t)
    ensures Slot(AllocAddr(fs, i, NDIRECT, t), i, NDIRECT + 1 + e) == 0
  {
  }

  lemma GrowTableOwns(fs: Fs, owner: map<nat, Place>, i: nat, n: nat, t: nat, b: nat)
    requires Wf(fs) && Own(fs, owner) && CanGrow(fs, i, n, TableAndEntry(t, b))
    ensures var g := TableAndEntry(t, b);
      Wf(Grow(fs, i, n, g)) && Own(Grow(fs, i, n, g), GrowOwner(owner, i, n, g))
  {
    hide Own, OthersSame;
    AllocAddrKeeps(fs, owner, i, NDIRECT, t);
    TableIsZero(fs, owner, i, t, n - NDIRECT);
    AllocEntryOwn(AllocAddr(fs, i, NDIRECT, t), owner[t := Place(i, NDIRECT)], i, n - NDIRECT, b);
  }

  lemma GrowOwns(fs: Fs, owner: map<nat, Place>, i: nat, n: nat, g: Growth)
    requires Wf(fs) && Own(fs, owner) && CanGrow(fs, i, n, g)
    ensures Wf(Grow(fs, i, n, g)) && Own(Grow(fs, i, n, g), GrowOwner(owner, i, n, g))
  {
    hide Wf, Own;
    match g
    case Found =>
    case Direct(b) => AllocAddrKeeps(fs, owner, i, n, b);
    case Entry(b) => AllocEntryOwn(fs, owner, i, n - NDIRECT, b);
    case TableAndEntry(t, b) => GrowTableOwns(fs, owner, i, n, t, b);
  }

  lemma GrowTableOthers(fs: Fs, owner: map<nat, Place>, i: nat, n: nat, t: nat, b: nat)
    requires Wf(fs) && Own(fs, owner) && CanGrow(fs, i, n, TableAndEntry(t, b))
    ensures OthersSame(fs, Grow(fs, i, n, TableAndEntry(t, b)), i)
  {
    hide Wf, Own, OthersSame;
    AllocAddrKeeps(fs, owner, i, NDIRECT, t);
    var fs1 := AllocAddr(fs, i, NDIRECT, t);
    AllocEntryOthers(fs1, owner[t := Place(i, NDIRECT)], i, n - NDIRECT, b);
    OthersSameTrans(fs, fs1, Grow(fs, i, n, TableAndEntry(t, b)), i);
  }

  lemma GrowOthers(fs: Fs, owner: map<nat, Place>, i: nat, n: nat, g: Growth)
    requires Wf(fs) && Own(fs, owner) && CanGrow(fs, i, n, g)
    ensures OthersSame(fs, Grow(fs, i, n, g), i)
  {
    hide Own;
    match g
    case Found =>
    case Direct(b) => AllocAddrKeeps(fs, owner, i, n, b);
    case Entry(b) => AllocEntryOthers(fs, owner, i, n - NDIRECT, b);
    case TableAndEntry(t, b) => GrowTableOthers(fs, owner, i, n, t, b);
  }

  /** bmap leaves the file's other blocks alone, and on the first unmapped block extends the mapping. */
  lemma GrowMaps(fs: Fs, owner: map<nat, Place>, i: nat, n: nat, g: Growth, m: nat)
    requires Wf(fs) && Own(fs, owner) && CanGrow(fs, i, n, g)
    ensures var fs' := Grow(fs, i, n, g);
      && Slot(fs', i, DataSlot(n)) != 0
      && (forall l: nat :: l < MAXFILE && l != n ==> SameBlock(fs, fs', i, l))
      && (Mapped(fs, i, m) && n == m ==> Mapped(fs', i, m + 1))
      && (Mapped(fs, i, m) && n < m ==> g == Found)
  {
    match g
    case Found =>
    case Direct(b) => AllocAddrMaps(fs, owner, i, n, b, m);
    case Entry(b) =>
      AllocEntryMaps(fs, owner, i, n - NDIRECT, b);
      AllocEntrySlots(fs, owner, i, n - NDIRECT, b);
    case TableAndEntry(t, b) => GrowMapsTable(fs, owner, i, n, t, b, m);
  }

  lemma GrowMapsTable(fs: Fs, owner: map<nat, Place>, i: nat, n: nat, t: nat, b: nat, m: nat)
    requires Wf(fs) && Own(fs, owner) && CanGrow(fs, i, n, TableAndEntry(t, b))
    ensures var fs' := Grow(fs, i, n, TableAndEntry(t, b));
      && Slot(fs', i, DataSlot(n)) != 0
      && (forall l: nat :: l < MAXFILE && l != n ==> SameBlock(fs, fs', i, l))
      && (Mapped(fs, i, m) && n == m ==> Mapped(fs', i, m + 1))
  {
    var fs1, fs' := AllocAddr(fs, i, NDIRECT, t), Grow(fs, i, n, TableAndEntry(t, b));
    var owner1 := owner[t := Place(i, NDIRECT)];
    AllocAddrKeeps(fs, owner, i, NDIRECT, t);
    AllocAddrMaps(fs, owner, i, NDIRECT, t, m);
    AllocEntryMaps(fs1, owner1, i, n - NDIRECT, b);
    AllocEntrySlots(fs1, owner1, i, n - NDIRECT, b);
    forall l: nat | l < MAXFILE && l != n ensures SameBlock(fs, fs', i, l) {
      assert SameBlock(fs, fs1, i, l) && SameBlock(fs1, fs', i, l);
    }
  }

  lemma StoreKeeps(fs: Fs, owner: map<nat, Place>, i: nat, n: nat, block: Block, m: nat)
    requires Wf(fs) && Own(fs, owner) && i < |fs.inodes| && n < m && Mapped(fs, i, m)
    ensures Slot(fs, i, DataSlot(n)) in fs.data
    ensures var fs' := Store(fs, Slot(fs, i, DataSlot(n)), block);
      && Wf(fs') && Own(fs', owner) && OthersSame(fs, fs', i)
      && Mapped(fs', i, m)
      && Slot(fs', i, DataSlot(n)) == Slot(fs, i, DataSlot(n))
      && (forall l: nat :: l < m && l != n ==> SameBlock(fs, fs', i, l))
  {
    var a := Slot(fs, i, DataSlot(n));
    var fs' := Store(fs, a, block);
    forall j: nat, l: nat | j < |fs.inodes| && l < SLOTS ensures Slot(fs', j, l) == Slot(fs, j, l) {
      assert fs.inodes[j].addrs[NDIRECT] == Slot(fs, j, NDIRECT);
    }
  }

  lemma OthersSameTrans(a: Fs, b: Fs, c: Fs, i: nat)
    requires OthersSame(a, b, i) && OthersSame(b, c, i)
    ensures OthersSame(a, c, i)
  {
    forall j: nat | j < |a.inodes| && j != i ensures SameFile(a, c, j) {
      assert SameFile(a, b, j) && SameFile(b, c, j);
    }
  }

  lemma SameFileContents(fs: Fs, fs': Fs, i: nat, s: seq<Byte>)
    requires SameFile(fs, fs', i) && Contents(fs, i, s)
    ensures Contents(fs', i, s)
  {
    forall j: nat | j < |s| ensures HasByte(fs', i, j) && ByteAt(fs', i, j) == s[j] {
      assert HasByte(fs, i, j);
    }
  }

  // ---- writing bytes ----

  /** Overwrites s at off, extending it if the new bytes reach past its end. */
  function Splice(s: seq<Byte>, off: nat, src: seq<Byte>): (r: seq<Byte>)
    requires off <= |s|
    ensures |r| == if off + |src| > |s| then off + |src| else |s|
    ensures forall j :: 0 <= j < |r| ==> r[j] == if off <= j < off + |src| then src[j - off] else s[j]
  {
    s[..off] + src + (if off + |src| < |s| then s[off + |src|..] else [])
  }

  lemma SpliceMore(s: seq<Byte>, off: nat, src: seq<Byte>, k: nat, l: nat)
    requires off <= |s| && k <= l <= |src|
    ensures Splice(Splice(s, off, src[..k]), off + k, src[k..l]) == Splice(s, off, src[..l])
  {
  }

  /** The block after memmove of src to offset o. */
  function Patch(block: Block, o: nat, src: seq<Byte>): Block
    requires o + |src| <= BSIZE
  {
    FromBytes(Bytes(block)[..o] + src + Bytes(block)[o + |src|..])
  }

  /** block' is block with src copied to offset o. */
  ghost predicate Patched(block: Block, block': Block, o: nat, src: seq<Byte>) {
    forall k :: 0 <= k < BSIZE ==>
      Bytes(block')[k] == if o <= k < o + |src| then src[k - o] else Bytes(block)[k]
  }

  lemma PatchBytes(block: Block, o: nat, src: seq<Byte>)
    requires o + |src| <= BSIZE
    ensures Patched(block, Patch(block, o, src), o, src)
  {
    hide FromBytes, BytesOf;
    BytesOfFromBytes(Bytes(block)[..o] + src + Bytes(block)[o + |src|..]);
  }

  /** Bytes 0..|s| of file i are s, whatever its recorded size. */
  ghost predicate Holds(fs: Fs, i: nat, s: seq<Byte>) {
    forall j: nat {:trigger HasByte(fs, i, j)} :: j < |s| ==> HasByte(fs, i, j) && ByteAt(fs, i, j) == s[j]
  }

  /** Keeping the first m blocks keeps the bytes in them. */
  lemma SameBlocksHold(fs: Fs, fs': Fs, i: nat, m: nat, s: seq<Byte>)
    requires Holds(fs, i, s) && |s| <= m * BSIZE && m <= MAXFILE
    requires forall n: nat :: n < m ==> SameBlock(fs, fs', i, n)
    ensures Holds(fs', i, s)
  {
    forall j: nat | j < |s| ensures HasByte(fs', i, j) && ByteAt(fs', i, j) == s[j] {
      assert HasByte(fs, i, j) && SameBlock(fs, fs', i, j / BSIZE);
    }
  }

  lemma StoreHoldsAt(fs: Fs, fs': Fs, i: nat, n: nat, o: nat, src: seq<Byte>, s: seq<Byte>, r: seq<Byte>, j: nat)
    requires i < |fs.inodes| && i < |fs'.inodes| && n < MAXFILE && Slot(fs, i, DataSlot(n)) in fs.data
    requires Holds(fs, i, s) && o + |src| <= BSIZE && n * BSIZE + o <= |s| && r == Splice(s, n * BSIZE + o, src)
    requires var a := Slot(fs, i, DataSlot(n));
      Slot(fs', i, DataSlot(n)) == a && a in fs'.data && Patched(fs.data[a], fs'.data[a], o, src)
    requires j < |r| && (j / BSIZE != n ==> SameBlock(fs, fs', i, j / BSIZE))
    ensures HasByte(fs', i, j) && ByteAt(fs', i, j) == r[j]
  {
    if j / BSIZE == n {
      if j < |s| { assert HasByte(fs, i, j) && ByteAt(fs, i, j) == s[j]; }
    } else {
      assert HasByte(fs, i, j) && ByteAt(fs, i, j) == s[j];
    }
  }

  lemma GrowHolds(fs: Fs, fs': Fs, i: nat, n: nat, m: nat, s: seq<Byte>)
    requires Holds(fs, i, s) && |s| <= m * BSIZE && m <= MAXFILE && i < |fs.inodes| && i < |fs'.inodes|
    requires n < m ==> fs' == fs
    requires forall l: nat :: l < MAXFILE && l != n ==> SameBlock(fs, fs', i, l)
    ensures Holds(fs', i, s)
  {
    if n >= m { SameBlocksHold(fs, fs', i, m, s); }
  }

  ghost predicate SameMeta(ip: Inode, ip': Inode) {
    ip' == ip.(addrs := ip'.addrs)
  }

  /** Writing src at offset o of block n writes it at n * BSIZE + o of the file. */
  lemma StoreHolds(fs: Fs, owner: map<nat, Place>, i: nat, n: nat, m: nat, block: Block,
                   o: nat, src: seq<Byte>, s: seq<Byte>)
    requires Wf(fs) && Own(fs, owner) && i < |fs.inodes| && n < m && Mapped(fs, i, m)
    requires Holds(fs, i, s) && |s| <= m * BSIZE && o + |src| <= BSIZE && n * BSIZE + o <= |s|
    requires Slot(fs, i, DataSlot(n)) in fs.data && Patched(fs.data[Slot(fs, i, DataSlot(n))], block, o, src)
    ensures Holds(Store(fs, Slot(fs, i, DataSlot(n)), block), i, Splice(s, n * BSIZE + o, src))
  {
    StoreKeeps(fs, owner, i, n, block, m);
    var fs', r := Store(fs, Slot(fs, i, DataSlot(n)), block), Splice(s, n * BSIZE + o, src);
    forall j: nat | j < |r| ensures HasByte(fs', i, j) && ByteAt(fs', i, j) == r[j] {
      StoreHoldsAt(fs, fs', i, n, o, src, s, r, j);
    }
  }

  /** The effect on the file system of writing src at off, inside one mapped block. */
  lemma StoreFacts(fs: Fs, owner: map<nat, Place>, i: nat, off: nat, block: Block, src: seq<Byte>, s: seq<Byte>, m: nat)
    requires Wf(fs) && Own(fs, owner) && i < |fs.inodes| && off / BSIZE < m && Mapped(fs, i, m)
    requires Holds(fs, i, s) && |s| <= m * BSIZE && off % BSIZE + |src| <= BSIZE && off <= |s|
    requires Slot(fs, i, DataSlot(off / BSIZE)) in fs.data
    requires block == Patch(fs.data[Slot(fs, i, DataSlot(off / BSIZE))], off % BSIZE, src)
    ensures var fs' := Store(fs, Slot(fs, i, DataSlot(off / BSIZE)), block);
      && Wf(fs') && Own(fs', owner) && OthersSame(fs, fs', i) && Mapped(fs', i, m)
      && Slot(fs', i, DataSlot(off / BSIZE)) == Slot(fs, i, DataSlot(off / BSIZE))
      && Holds(fs', i, Splice(s, off, src))
  {
    assert m <= MAXFILE;
    hide Wf, Own, OthersSame, Mapped, Holds, Patched;
    var n, o := off / BSIZE, off % BSIZE;
    PatchBytes(fs.data[Slot(fs, i, DataSlot(n))], o, src);
    StoreKeeps(fs, owner, i, n, block, m);
    StoreHolds(fs, owner, i, n, m, block, o, src, s);
    assert n * BSIZE + o == off;
  }

  // ---- the run of a write ----

  /** One turn of writei's loop: bmap with outcome g, then piece copied into the block at off. */
  ghost predicate Piece(fs: Fs, owner: map<nat, Place>, fs': Fs, owner': map<nat, Place>,
                        i: nat, off: nat, piece: seq<Byte>, g: Growth) {
    && CanGrow(fs, i, off / BSIZE, g) && 0 < |piece| <= BSIZE - off % BSIZE
    && var f := Grow(fs, i, off / BSIZE, g);
       var a := Slot(f, i, DataSlot(off / BSIZE));
    && a in f.data && fs' == Store(f, a, Patch(f.data[a], off % BSIZE, piece))
    && owner' == GrowOwner(owner, i, off / BSIZE, g)
  }

  /** File i holds cur in as few blocks as possible. */
  ghost predicate Compact(fs: Fs, i: nat, cur: seq<Byte>) {
    i < |fs.inodes| && Mapped(fs, i, BlocksFor(|cur|)) && Holds(fs, i, cur)
  }

  lemma GrowCompact(fs: Fs, owner: map<nat, Place>, i: nat, off: nat, cur: seq<Byte>, g: Growth)
    requires Wf(fs) && Own(fs, owner) && Compact(fs, i, cur) && off <= |cur| && CanGrow(fs, i, off / BSIZE, g)
    ensures var f, m := Grow(fs, i, off / BSIZE, g), BlocksFor(|cur|);
      && Mapped(f, i, if off / BSIZE < m then m else m + 1) && Holds(f, i, cur)
      && (off / BSIZE < m ==> f == fs) && SameMeta(fs.inodes[i], f.inodes[i])
  {
    var n, m, f := off / BSIZE, BlocksFor(|cur|), Grow(fs, i, off / BSIZE, g);
    GrowMaps(fs, owner, i, n, g, m);
    GrowHolds(fs, f, i, n, m, cur);
  }

  lemma PieceWrites(fs: Fs, owner: map<nat, Place>, fs': Fs, owner': map<nat, Place>,
                    i: nat, off: nat, piece: seq<Byte>, g: Growth, cur: seq<Byte>)
    requires Wf(fs) && Own(fs, owner) && Compact(fs, i, cur) && off <= |cur|
    requires Piece(fs, owner, fs', owner', i, off, piece, g)
    ensures Wf(fs') && Own(fs', owner') && Compact(fs', i, Splice(cur, off, piece)) && OthersSame(fs, fs', i)
    ensures SameMeta(fs.inodes[i], fs'.inodes[i])
    ensures off + |piece| <= |cur| ==> fs'.inodes == fs.inodes
  {
    hide Wf, Own, OthersSame, Holds, Mapped;
    var n, m, f := off / BSIZE, BlocksFor(|cur|), Grow(fs, i, off / BSIZE, g);
    GrowOwns(fs, owner, i, n, g);
    GrowOthers(fs, owner, i, n, g);
    GrowCompact(fs, owner, i, off, cur, g);
    var a, m' := Slot(f, i, DataSlot(n)), if n < m then m else m + 1;
    StoreFacts(f, owner', i, off, Patch(f.data[a], off % BSIZE, piece), piece, cur, m');
    OthersSameTrans(fs, f, fs', i);
    assert BlocksFor(|Splice(cur, off, piece)|) == m';
  }

  /** What a write needs: file i holds s, and the range starts inside it and fits in a file. */
  ghost predicate WriteStart(fs: Fs, owner: map<nat, Place>, i: nat, off: nat, src: seq<Byte>, s: seq<Byte>) {
    Wf(fs) && Own(fs, owner) && Compact(fs, i, s) && off <= |s| && off + |src| <= MAXFILE * BSIZE
  }

  /** fs is reached from fs0, where file i holds s, by writing the first tot bytes of src at off, piece by piece. */
  ghost predicate Wrote(fs0: Fs, owner0: map<nat, Place>, s: seq<Byte>, fs: Fs, owner: map<nat, Place>,
                        i: nat, off: nat, src: seq<Byte>, tot: nat)
    requires tot <= |src|
    decreases tot
  {
    if tot == 0 then fs == fs0 && owner == owner0 && WriteStart(fs0, owner0, i, off, src, s)
    else exists fs1: Fs, owner1: map<nat, Place>, t: nat, g: Growth ::
      && t < tot && Wrote(fs0, owner0, s, fs1, owner1, i, off, src, t)
      && Turn(fs1, owner1, fs, owner, i, off, src, t, tot, g)
  }

  /** The turn that writes src[t..tot]. */
  ghost predicate Turn(fs: Fs, owner: map<nat, Place>, fs': Fs, owner': map<nat, Place>,
                       i: nat, off: nat, src: seq<Byte>, t: nat, tot: nat, g: Growth) {
    t <= tot <= |src| && Piece(fs, owner, fs', owner', i, off + t, src[t..tot], g)
  }

  /** Ownership and all other files are kept, and file i holds cur. */
  ghost predicate Progress(fs0: Fs, fs: Fs, owner: map<nat, Place>, i: nat, cur: seq<Byte>) {
    && Wf(fs) && Own(fs, owner) && Compact(fs, i, cur)
    && i < |fs0.inodes| && OthersSame(fs0, fs, i) && SameMeta(fs0.inodes[i], fs.inodes[i])
  }

  lemma TurnProgress(fs0: Fs, fs1: Fs, owner1: map<nat, Place>, fs: Fs, owner: map<nat, Place>,
                     i: nat, off: nat, src: seq<Byte>, t: nat, tot: nat, g: Growth, s: seq<Byte>)
    requires off <= |s| && t <= tot <= |src| && Progress(fs0, fs1, owner1, i, Splice(s, off, src[..t]))
    requires Turn(fs1, owner1, fs, owner, i, off, src, t, tot, g)
    ensures Progress(fs0, fs, owner, i, Splice(s, off, src[..tot]))
    ensures off + tot <= |s| ==> fs.inodes == fs1.inodes
  {
    hide Wf, Own, Compact, OthersSame, Piece;
    PieceWrites(fs1, owner1, fs, owner, i, off + t, src[t..tot], g, Splice(s, off, src[..t]));
    SpliceMore(s, off, src, t, tot);
    OthersSameTrans(fs0, fs1, fs, i);
  }

  /** Every such run keeps block ownership and all other files, and splices the bytes into file i. */
  lemma {:induction false} WroteMeans(fs0: Fs, owner0: map<nat, Place>, s: seq<Byte>, fs: Fs, owner: map<nat, Place>,
                                      i: nat, off: nat, src: seq<Byte>, tot: nat)
    requires tot <= |src| && Wrote(fs0, owner0, s, fs, owner, i, off, src, tot)
    ensures off <= |s| && Progress(fs0, fs, owner, i, Splice(s, off, src[..tot]))
    ensures off + tot <= |s| ==> fs.inodes == fs0.inodes
    ensures WriteStart(fs0, owner0, i, off, src, s)
    decreases tot
  {
    if tot == 0 {
      assert Splice(s, off, src[..0]) == s;
    } else {
      var fs1: Fs, owner1: map<nat, Place>, t: nat, g: Growth :|
        && t < tot && Wrote(fs0, owner0, s, fs1, owner1, i, off, src, t)
        && Turn(fs1, owner1, fs, owner, i, off, src, t, tot, g);
      WroteMeans(fs0, owner0, s, fs1, owner1, i, off, src, t);
      TurnProgress(fs0, fs1, owner1, fs, owner, i, off, src, t, tot, g, s);
    }
  }

  lemma WroteReady(fs0: Fs, owner0: map<nat, Place>, s: seq<Byte>, fs: Fs, owner: map<nat, Place>,
                   i: nat, off: nat, src: seq<Byte>, tot: nat)
    requires tot < |src| && Wrote(fs0, owner0, s, fs, owner, i, off, src, tot)
    ensures Ready(fs, i, (off + tot) / BSIZE)
  {
    WroteMeans(fs0, owner0, s, fs, owner, i, off, src, tot);
    OwnReady(fs, owner, i, (off + tot) / BSIZE);
  }

  /** Inside the old file, every block that a turn asks for is mapped. */
  lemma WroteMapped(fs0: Fs, owner0: map<nat, Place>, s: seq<Byte>, fs: Fs, owner: map<nat, Place>,
                    i: nat, off: nat, src: seq<Byte>, tot: nat)
    requires tot <= |src| && Wrote(fs0, owner0, s, fs, owner, i, off, src, tot) && off + tot < |s|
    ensures i < |fs.inodes| && (off + tot) / BSIZE < MAXFILE && Slot(fs, i, DataSlot((off + tot) / BSIZE)) != 0
  {
    WroteMeans(fs0, owner0, s, fs, owner, i, off, src, tot);
    assert (off + tot) / BSIZE < BlocksFor(|Splice(s, off, src[..tot])|);
  }

  lemma WroteMore(fs0: Fs, owner0: map<nat, Place>, s: seq<Byte>, fs1: Fs, owner1: map<nat, Place>,
                  fs: Fs, owner: map<nat, Place>, i: nat, off: nat, src: seq<Byte>, t: nat, tot: nat, g: Growth)
    requires t < tot <= |src| && Wrote(fs0, owner0, s, fs1, owner1, i, off, src, t)
    requires Turn(fs1, owner1, fs, owner, i, off, src, t, tot, g)
    ensures Wrote(fs0, owner0, s, fs, owner, i, off, src, tot)
  {
  }

  /** The file system once the size of inode i is set to n. */
  function Sized(fs: Fs, i: nat, n: Uint): Fs
    requires i < |fs.inodes|
  {
    fs.(inodes := fs.inodes[i := fs.inodes[i].(size := n)])
  }

  /** The end of a write: recording the new size restores the invariant. */
  lemma WriteEnds(fs0: Fs, owner0: map<nat, Place>, fs: Fs, owner: map<nat, Place>, i: nat, cur: seq<Byte>)
    requires Inv(fs0, owner0) && Progress(fs0, fs, owner, i, cur) && |cur| <= MAXFILE * BSIZE
    requires fs0.inodes[i].kind != 0
    ensures var f := Sized(fs, i, |cur|);
      Inv(f, owner) && Contents(f, i, cur) && OthersSame(fs0, f, i)
      && f.inodes[i] == fs0.inodes[i].(size := |cur|, addrs := f.inodes[i].addrs)
  {
    var f := Sized(fs, i, |cur|);
    assert forall j: nat, k: nat :: j < |fs.inodes| && k < SLOTS ==> Slot(f, j, k) == Slot(fs, j, k);
    SizedHolds(fs, f, i, cur);
    forall j: nat | j < |fs.inodes| && j != i ensures SameFile(fs0, f, j) { assert SameFile(fs0, fs, j); }
    OthersOk(fs0, f, i);
  }

  lemma SizedHolds(fs: Fs, f: Fs, i: nat, cur: seq<Byte>)
    requires Holds(fs, i, cur) && i < |fs.inodes| == |f.inodes| && f.data == fs.data
    requires f.inodes[i].addrs == fs.inodes[i].addrs
    ensures Holds(f, i, cur)
  {
    forall j: nat | j < |cur| ensures HasByte(f, i, j) && ByteAt(f, i, j) == cur[j] {
      assert HasByte(fs, i, j);
    }
  }

  // ---- truncation ----

  /** The blocks that inode i points to. */
  ghost function OwnedBy(fs: Fs, i: nat): set<nat>
    requires i < |fs.inodes|
  {
    set k | 0 <= k < SLOTS && Slot(fs, i, k) != 0 :: Slot(fs, i, k)
  }

  function Emptied(ip: Inode): Inode {
    ip.(size := 0, addrs := seq(NDIRECT + 1, k => 0))
  }

  ghost function OwnedAt(fs: Fs, i: nat, ks: set<nat>): set<nat>
    requires i < |fs.inodes| && forall k :: k in ks ==> k < SLOTS
  {
    set k | k in ks && Slot(fs, i, k) != 0 :: Slot(fs, i, k)
  }

  /** itrunc has freed the blocks of the slots ks of inode i and changed no other inode. */
  ghost predicate Freeing(fs0: Fs, fs: Fs, i: nat, ks: set<nat>) {
    && i < |fs0.inodes| && (forall k :: k in ks ==> k < SLOTS)
    && fs.dataStart == fs0.dataStart && fs.data == fs0.data
    && |fs.inodes| == |fs0.inodes| && fs.inodes == fs0.inodes[i := fs.inodes[i]]
    && |fs.used| == |fs0.used|
    && forall b :: 0 <= b < |fs.used| ==> (fs.used[b] <==> fs0.used[b] && b !in OwnedAt(fs0, i, ks))
  }

  lemma FreeingNone(fs: Fs, i: nat)
    requires i < |fs.inodes|
    ensures Freeing(fs, fs, i, {})
  {
  }

  /** The next slot's block is still in use, so bfree cannot panic. */
  lemma FreeOne(fs0: Fs, fs: Fs, owner: map<nat, Place>, i: nat, ks: set<nat>, k: nat)
    requires Wf(fs0) && Own(fs0, owner) && Freeing(fs0, fs, i, ks) && k < SLOTS && k !in ks
    ensures Slot(fs0, i, k) == 0 ==> Freeing(fs0, fs, i, ks + {k})
    ensures var b := Slot(fs0, i, k);
      b != 0 ==> b < |fs.used| && fs.used[b] && Freeing(fs0, fs.(used := fs.used[b := false]), i, ks + {k})
  {
    var b := Slot(fs0, i, k);
    if b == 0 {
      assert OwnedAt(fs0, i, ks + {k}) == OwnedAt(fs0, i, ks);
    } else {
      assert b in owner && b !in OwnedAt(fs0, i, ks);
      assert OwnedAt(fs0, i, ks + {k}) == OwnedAt(fs0, i, ks) + {b};
    }
  }

  /** itrunc: the inode's blocks, all of them and no others, are free and the inode is empty. */
  ghost predicate Truncated(fs: Fs, fs': Fs, i: nat) {
    && i < |fs.inodes| && fs'.dataStart == fs.dataStart && fs'.data == fs.data
    && fs'.inodes == fs.inodes[i := Emptied(fs.inodes[i])]
    && |fs'.used| == |fs.used|
    && forall b :: 0 <= b < |fs.used| ==> (fs'.used[b] <==> fs.used[b] && b !in OwnedBy(fs, i))
  }

  /** Without a table, every indirect slot counts as freed. */
  lemma FreeingNoTable(fs0: Fs, fs: Fs, i: nat, ks: set<nat>) returns (all: set<nat>)
    requires Wf(fs0) && Freeing(fs0, fs, i, ks) && fs0.inodes[i].addrs[NDIRECT] == 0
    requires forall k: nat :: k in ks <==> k < NDIRECT
    ensures Freeing(fs0, fs, i, all) && forall k: nat :: k in all <==> k < SLOTS
  {
    all := ks;
    var k := NDIRECT;
    while k < SLOTS
      invariant NDIRECT <= k <= SLOTS && Freeing(fs0, fs, i, all)
      invariant forall l: nat :: l in all <==> l < k
    {
      assert Slot(fs0, i, k) == 0;
      assert OwnedAt(fs0, i, all + {k}) == OwnedAt(fs0, i, all);
      all := all + {k};
      k := k + 1;
    }
  }

  lemma FreeingAll(fs0: Fs, fs: Fs, i: nat, ks: set<nat>)
    requires Freeing(fs0, fs, i, ks) && (forall k: nat :: k < SLOTS ==> k in ks)
    requires fs.inodes[i] == Emptied(fs0.inodes[i])
    ensures Truncated(fs0, fs, i)
  {
    assert OwnedAt(fs0, i, ks) == OwnedBy(fs0, i);
  }

  lemma TruncatedSlots(fs: Fs, fs': Fs, i: nat, j: nat, k: nat)
    requires Wf(fs) && Truncated(fs, fs', i) && j < |fs.inodes| && k < SLOTS
    ensures Slot(fs', j, k) == if j == i then 0 else Slot(fs, j, k)
  {
  }

  lemma TruncatedOwn(fs: Fs, fs': Fs, owner: map<nat, Place>, i: nat)
    requires Wf(fs) && Own(fs, owner) && Truncated(fs, fs', i)
    ensures Own(fs', owner - OwnedBy(fs, i))
  {
    var freed := OwnedBy(fs, i);
    var owner' := owner - freed;
    forall b | b in owner'
      ensures fs'.dataStart <= b < |fs'.used| && fs'.used[b] && IsPlace(fs', owner'[b])
      ensures Slot(fs', owner'[b].inum, owner'[b].slot) == b
    {
      var p := owner[b];
      TruncatedSlots(fs, fs', i, p.inum, p.slot);
    }
    forall j: nat, k: nat | j < |fs.inodes| && k < SLOTS && Slot(fs', j, k) != 0
      ensures Slot(fs', j, k) in owner' && owner'[Slot(fs', j, k)] == Place(j, k)
    {
      TruncatedSlots(fs, fs', i, j, k);
    }
    assert forall b :: b in freed ==> fs.dataStart <= b;
  }

  lemma TruncatedInv(fs: Fs, fs': Fs, owner: map<nat, Place>, i: nat)
    requires Inv(fs, owner) && Truncated(fs, fs', i)
    ensures Inv(fs', owner - OwnedBy(fs, i)) && OthersSame(fs, fs', i) && Contents(fs', i, [])
  {
    TruncatedOwn(fs, fs', owner, i);
    forall j: nat | j < |fs.inodes| && j != i ensures SameFile(fs, fs', j) {
      forall k: nat | k < SLOTS ensures Slot(fs', j, k) == Slot(fs, j, k) { TruncatedSlots(fs, fs', i, j, k); }
    }
    forall k: nat | k < SLOTS ensures Slot(fs', i, k) == 0 { TruncatedSlots(fs, fs', i, i, k); }
    OthersOk(fs, fs', i);
  }

  lemma OthersOk(fs: Fs, fs': Fs, i: nat)
    requires OthersSame(fs, fs', i) && forall j: nat :: j < |fs.inodes| ==> FileOk(fs, j)
    ensures forall j: nat :: j < |fs.inodes| && j != i ==> FileOk(fs', j)
  {
    forall j: nat | j < |fs.inodes| && j != i ensures FileOk(fs', j) {
      assert SameFile(fs, fs', j) && FileOk(fs, j);
    }
  }

  // ---- what ownership means ----

  /**
   * A bitmap bit is set exactly when the block is metadata or some inode's slot points to it, and no
   * two slots, of one inode or of two, point to the same block.
   */
  lemma OwnershipMeans(fs: Fs, owner: map<nat, Place>)
    requires Inv(fs, owner)
    ensures forall b: nat :: b < |fs.used| ==>
      (fs.used[b] <==> b < fs.dataStart
                       || exists i: nat, k: nat :: i < |fs.inodes| && k < SLOTS && Slot(fs, i, k) == b)
    ensures forall i: nat, k: nat, i': nat, k': nat ::
      (i < |fs.inodes| && k < SLOTS && i' < |fs.inodes| && k' < SLOTS
       && Slot(fs, i, k) == Slot(fs, i', k') != 0) ==> i == i' && k == k'
  {
    forall b: nat | b < |fs.used| && b in owner
      ensures exists i: nat, k: nat :: i < |fs.inodes| && k < SLOTS && Slot(fs, i, k) == b
    {
      assert Slot(fs, owner[b].inum, owner[b].slot) == b;
    }
  }

  /** A file system without files, whose bitmap marks the metadata, is in good order. */
  lemma BlankInv(fs: Fs)
    requires Wf(fs) && forall b :: 0 <= b < |fs.used| ==> (fs.used[b] <==> b < fs.dataStart)
    requires forall i :: 0 <= i < |fs.inodes| ==> fs.inodes[i] == Emptied(fs.inodes[i])
    ensures Inv(fs, map[])
  {
    forall i: nat, k: nat | i < |fs.inodes| && k < SLOTS ensures Slot(fs, i, k) == 0 {
      assert fs.inodes[i].addrs == Emptied(fs.inodes[i]).addrs;
    }
  }

  // ---- reading bytes ----

  /** The first n bytes of file i. */
  ghost function Prefix(fs: Fs, i: nat, n: nat): (s: seq<Byte>)
    requires forall j: nat :: j < n ==> HasByte(fs, i, j)
    ensures |s| == n && Holds(fs, i, s)
  {
    if n == 0 then [] else Prefix(fs, i, n - 1) + [ByteAt(fs, i, n - 1)]
  }

  lemma MappedHasBytes(fs: Fs, owner: map<nat, Place>, i: nat, m: nat)
    requires Wf(fs) && Own(fs, owner) && i < |fs.inodes| && Mapped(fs, i, m)
    ensures forall j: nat :: j < m * BSIZE ==> HasByte(fs, i, j)
  {
    forall j: nat | j < m * BSIZE ensures HasByte(fs, i, j) {
      assert j / BSIZE < m;
      assert Slot(fs, i, DataSlot(j / BSIZE)) in owner;
    }
  }

  /** The contents of file i: it exists in every good state, and Contents says what it is. */
  ghost function FileBytes(fs: Fs, owner: map<nat, Place>, i: nat): (s: seq<Byte>)
    requires Inv(fs, owner) && i < |fs.inodes|
    ensures Contents(fs, i, s)
  {
    var size := fs.inodes[i].size;
    assert FileOk(fs, i);
    MappedHasBytes(fs, owner, i, BlocksFor(size));
    Prefix(fs, i, size)
  }

  lemma ContentsUnique(fs: Fs, i: nat, s: seq<Byte>, t: seq<Byte>)
    requires Contents(fs, i, s) && Contents(fs, i, t)
    ensures s == t
  {
    forall j: nat | j < |s| ensures s[j] == t[j] { assert HasByte(fs, i, j); }
  }

  /** Files that an operation leaves alone keep their bytes. */
  lemma OthersKeepBytes(fs: Fs, owner: map<nat, Place>, fs': Fs, owner': map<nat, Place>, i: nat, j: nat)
    requires Inv(fs, owner) && Inv(fs', owner') && OthersSame(fs, fs', i) && j < |fs.inodes| && j != i
    ensures FileBytes(fs', owner', j) == FileBytes(fs, owner, j)
  {
    assert SameFile(fs, fs', j);
    SameFileContents(fs, fs', j, FileBytes(fs, owner, j));
    ContentsUnique(fs', j, FileBytes(fs', owner', j), FileBytes(fs, owner, j));
  }

  /** A piece of one block is a piece of the file. */
  lemma BlockPiece(fs: Fs, i: nat, s: seq<Byte>, off: nat, m: nat)
    requires Holds(fs, i, s) && off + m <= |s| && off % BSIZE + m <= BSIZE && 0 < m
    ensures HasByte(fs, i, off)
    ensures Bytes(fs.data[Slot(fs, i, DataSlot(off / BSIZE))])[off % BSIZE..off % BSIZE + m] == s[off..off + m]
  {
    assert HasByte(fs, i, off);
    var b := Bytes(fs.data[Slot(fs, i, DataSlot(off / BSIZE))]);
    forall k | off <= k < off + m ensures b[off % BSIZE + k - off] == s[k] {
      assert k / BSIZE == off / BSIZE && k % BSIZE == off % BSIZE + k - off;
      assert HasByte(fs, i, k) && ByteAt(fs, i, k) == s[k];
    }
    var piece, slice := b[off % BSIZE..off % BSIZE + m], s[off..off + m];
    assert forall l :: 0 <= l < m ==> piece[l] == slice[l];
  }
}
