/** Where the bitmap, the inodes and the data lie on disk, and how they are packed into blocks. */
module FsLayout {
  import opened Common
  import opened Blocks
  import opened FsModel

  const IPB := 8       // inodes per block
  const BPB := 4096    // bitmap bits per block

  /** The superblock fields that place the regions; dataStart is the first block after the bitmap. */
  datatype Super = Super(size: nat, ninodes: nat, inodeStart: nat, bmapStart: nat, dataStart: nat) {
    predicate Valid() {
      && 2 <= inodeStart && inodeStart + ninodes / IPB < bmapStart
      && bmapStart + size / BPB < dataStart <= size <= UINT_LIMIT
    }

    function IBlock(i: nat): nat { inodeStart + i / IPB }

    function BBlock(b: nat): nat { bmapStart + b / BPB }
  }

  // ---- bits: in a little-endian word, bit b % 8 of byte b / 8 is bit b % 32 of word b / 32 ----

  function Pow2(n: nat): (p: nat)
    ensures p > 0
  {
    if n == 0 then 1 else 2 * Pow2(n - 1)
  }

  predicate Bit(w: nat, k: nat) {
    if k == 0 then w % 2 == 1 else Bit(w / 2, k - 1)
  }

  /** w with bit k set or cleared, as w | 1 << k and w & ~(1 << k) are. */
  function PutBit(w: nat, k: nat, v: bool): nat {
    if k == 0 then w / 2 * 2 + (if v then 1 else 0) else PutBit(w / 2, k - 1, v) * 2 + w % 2
  }

  lemma {:induction false} BitOfPutBit(w: nat, k: nat, v: bool, j: nat)
    ensures Bit(PutBit(w, k, v), j) == if j == k then v else Bit(w, j)
  {
    if k > 0 && j > 0 {
      assert PutBit(w, k, v) / 2 == PutBit(w / 2, k - 1, v);
      BitOfPutBit(w / 2, k - 1, v, j - 1);
    }
  }

  lemma {:induction false} PutBitFits(w: nat, k: nat, v: bool, n: nat)
    requires k < n && w < Pow2(n)
    ensures PutBit(w, k, v) < Pow2(n)
  {
    if k > 0 { PutBitFits(w / 2, k - 1, v, n - 1); }
  }

  lemma Pow2Uint()
    ensures Pow2(32) == UINT_LIMIT
  {
    assert Pow2(8) == 0x100;
    assert Pow2(16) == 0x1_0000;
    assert Pow2(24) == 0x100_0000;
  }

  // ---- the bitmap ----

  predicate UsedBit(sb: Super, store: seq<Block>, b: nat)
    requires sb.Valid() && |store| == sb.size && b < sb.size
  {
    Bit(store[sb.BBlock(b)].words[b % BPB / 32], b % 32)
  }

  lemma ScanIndex(b: nat, bi: nat)
    requires b % BPB == 0 && bi < BPB
    ensures (b + bi) / BPB == b / BPB && (b + bi) % BPB == bi && bi % 32 == (b + bi) % 32
  {
    var q := b / BPB;
    assert b + bi == q * BPB + bi;
    BitInWord(b + bi);
  }

  /** The scan of bitmap block b / BPB finds block b + bi at bit bi. */
  lemma ScanBit(sb: Super, store: seq<Block>, b: nat, bi: nat)
    requires sb.Valid() && |store| == sb.size && b % BPB == 0 && bi < BPB && b + bi < sb.size
    ensures UsedBit(sb, store, b + bi) == Bit(store[sb.BBlock(b)].words[bi / 32], bi % 32)
  {
    hide Bit;
    ScanIndex(b, bi);
  }

  function PutUsed(block: Block, bi: nat, v: bool): Block
    requires bi < BPB
  {
    var w := block.words[bi / 32];
    Pow2Uint();
    PutBitFits(w, bi % 32, v, 32);
    Block(block.words[bi / 32 := PutBit(w, bi % 32, v)])
  }

  lemma Mod32(x: nat, y: nat)
    ensures (32 * x + y) % 32 == y % 32
  {
  }

  lemma BitInWord(b: nat)
    ensures b % BPB % 32 == b % 32
  {
    var q, r := b / BPB, b % BPB;
    Mod32(128 * q, r);
    assert b == 32 * (128 * q) + r;
  }

  lemma BitPosition(b: nat, x: nat)
    requires b / BPB == x / BPB && b % BPB / 32 == x % BPB / 32 && b % 32 == x % 32
    ensures b == x
  {
    BitInWord(b);
    BitInWord(x);
    var r, y := b % BPB, x % BPB;
    assert r == 32 * (r / 32) + r % 32 && y == 32 * (y / 32) + y % 32;
  }

  lemma UsedBitOfPut(sb: Super, store: seq<Block>, b: nat, v: bool, x: nat)
    requires sb.Valid() && |store| == sb.size && b < sb.size && x < sb.size
    ensures UsedBit(sb, store[sb.BBlock(b) := PutUsed(store[sb.BBlock(b)], b % BPB, v)], x)
         == if x == b then v else UsedBit(sb, store, x)
  {
    if b / BPB == x / BPB && x % BPB / 32 == b % BPB / 32 {
      BitInWord(b);
      BitOfPutBit(store[sb.BBlock(b)].words[b % BPB / 32], b % 32, v, x % 32);
      if x % 32 == b % 32 { BitPosition(b, x); }
    }
  }

  // ---- inodes ----

  function InodeOf(ws: seq<Uint>): Inode
    requires |ws| == 16
  {
    Inode(ws[0] % 0x1_0000, ws[0] / 0x1_0000, ws[1] % 0x1_0000, ws[1] / 0x1_0000, ws[2], ws[3..16])
  }

  function InodeWords(ip: Inode): (ws: seq<Uint>)
    ensures |ws| == 16
  {
    [ip.kind + 0x1_0000 * ip.major as int, ip.minor + 0x1_0000 * ip.nlink as int, ip.size] + ip.addrs
  }

  lemma InodeRoundTrip(ip: Inode)
    ensures InodeOf(InodeWords(ip)) == ip
  {
  }

  function DiskInode(sb: Super, store: seq<Block>, i: nat): Inode
    requires sb.Valid() && |store| == sb.size && i < sb.ninodes
  {
    var k := i % IPB * 16;
    InodeOf(store[sb.IBlock(i)].words[k..k + 16])
  }

  function PutInode(block: Block, k: nat, ip: Inode): Block
    requires k < IPB
  {
    Block(block.words[..k * 16] + InodeWords(ip) + block.words[k * 16 + 16..])
  }

  lemma PutInodeHere(block: Block, k: nat, ip: Inode)
    requires k < IPB
    ensures PutInode(block, k, ip).words[k * 16..k * 16 + 16] == InodeWords(ip)
  {
    hide InodeWords;
  }

  lemma PutInodeElsewhere(block: Block, k: nat, ip: Inode, l: nat)
    requires k < IPB && l < IPB && l != k
    ensures PutInode(block, k, ip).words[l * 16..l * 16 + 16] == block.words[l * 16..l * 16 + 16]
  {
    hide InodeWords;
    assert l * 16 + 16 <= k * 16 || k * 16 + 16 <= l * 16;
  }

  lemma DiskInodeOfPut(sb: Super, store: seq<Block>, i: nat, ip: Inode, j: nat)
    requires sb.Valid() && |store| == sb.size && i < sb.ninodes && j < sb.ninodes
    ensures DiskInode(sb, store[sb.IBlock(i) := PutInode(store[sb.IBlock(i)], i % IPB, ip)], j)
         == if j == i then ip else DiskInode(sb, store, j)
  {
    hide PutInode, InodeOf, InodeWords;
    InodeRoundTrip(ip);
    PutInodeHere(store[sb.IBlock(i)], i % IPB, ip);
    if i % IPB != j % IPB { PutInodeElsewhere(store[sb.IBlock(i)], i % IPB, ip, j % IPB); }
  }

  // ---- the disk and the inode cache show a file system ----

  ghost predicate Shows(sb: Super, store: seq<Block>, icache: map<nat, Inode>, fs: Fs) {
    && sb.Valid() && |store| == |fs.used| == sb.size && |fs.inodes| == sb.ninodes
    && Wf(fs) && fs.dataStart == sb.dataStart
    && (forall b: nat {:trigger UsedBit(sb, store, b)} :: b < sb.size ==> fs.used[b] == UsedBit(sb, store, b))
    && (forall i: nat :: i < sb.ninodes && i in icache ==> fs.inodes[i] == icache[i])
    && (forall i: nat {:trigger DiskInode(sb, store, i)} :: i < sb.ninodes && i !in icache ==>
          fs.inodes[i] == DiskInode(sb, store, i))
    && (forall b {:trigger fs.data[b]} :: b in fs.data ==> fs.data[b] == store[b])
  }

  /** Every inode's disk copy is up to date, except perhaps that of inode x. */
  ghost predicate SyncedBut(sb: Super, store: seq<Block>, fs: Fs, x: nat) {
    && sb.Valid() && |store| == sb.size && |fs.inodes| == sb.ninodes
    && forall i: nat {:trigger DiskInode(sb, store, i)} :: i < sb.ninodes && i != x ==>
         DiskInode(sb, store, i) == fs.inodes[i]
  }

  /** One call of log_write: the block and what its buffer holds. */
  datatype BlockWrite = BlockWrite(b: nat, data: Block)

  /** The store after the writes. */
  function Written(base: seq<Block>, ws: seq<BlockWrite>): (store: seq<Block>)
    ensures |store| == |base|
  {
    if ws == [] then base
    else
      var store, w := Written(base, ws[..|ws| - 1]), ws[|ws| - 1];
      if w.b < |store| then store[w.b := w.data] else store
  }

  /** The transaction that started from base made the writes ws, of blocks of the file system that are in logged. */
  ghost predicate Covered(sb: Super, base: seq<Block>, store: seq<Block>, logged: set<nat>, ws: seq<BlockWrite>) {
    && |base| == |store| && store == Written(base, ws)
    && forall i :: 0 <= i < |ws| ==> sb.inodeStart <= ws[i].b < sb.size && ws[i].b in logged
  }

  lemma CoveredMore(sb: Super, base: seq<Block>, store: seq<Block>, logged: set<nat>, ws: seq<BlockWrite>, b: nat,
                    block: Block)
    requires Covered(sb, base, store, logged, ws) && sb.inodeStart <= b < sb.size == |store|
    ensures Covered(sb, base, store[b := block], logged + {b}, ws + [BlockWrite(b, block)])
  {
    assert (ws + [BlockWrite(b, block)])[..|ws|] == ws;
  }

  lemma CoveredNothing(sb: Super, store: seq<Block>)
    ensures Covered(sb, store, store, {}, [])
  {
  }

  lemma SyncedLess(sb: Super, store: seq<Block>, fs: Fs, x: nat, i: nat)
    requires SyncedBut(sb, store, fs, x) && (x == i || x == sb.ninodes)
    ensures SyncedBut(sb, store, fs, i)
  {
  }

  lemma PutUsedShows(sb: Super, store: seq<Block>, icache: map<nat, Inode>, fs: Fs, b: nat, v: bool, x: nat)
    requires Shows(sb, store, icache, fs) && SyncedBut(sb, store, fs, x) && b < sb.size
    ensures var store' := store[sb.BBlock(b) := PutUsed(store[sb.BBlock(b)], b % BPB, v)];
      && Shows(sb, store', icache, fs.(used := fs.used[b := v]))
      && SyncedBut(sb, store', fs.(used := fs.used[b := v]), x)
  {
    var store' := store[sb.BBlock(b) := PutUsed(store[sb.BBlock(b)], b % BPB, v)];
    forall y: nat | y < sb.size ensures UsedBit(sb, store', y) == fs.used[b := v][y] {
      UsedBitOfPut(sb, store, b, v, y);
    }
    assert forall i: nat :: i < sb.ninodes ==> DiskInode(sb, store', i) == DiskInode(sb, store, i);
  }

  lemma StoreShows(sb: Super, store: seq<Block>, icache: map<nat, Inode>, fs: Fs, b: nat, block: Block, x: nat)
    requires Shows(sb, store, icache, fs) && SyncedBut(sb, store, fs, x) && b in fs.data
    ensures Shows(sb, store[b := block], icache, fs.(data := fs.data[b := block]))
    ensures SyncedBut(sb, store[b := block], fs.(data := fs.data[b := block]), x)
  {
    var store' := store[b := block];
    assert forall i: nat :: i < sb.ninodes ==> DiskInode(sb, store', i) == DiskInode(sb, store, i);
    assert forall y: nat :: y < sb.size ==> UsedBit(sb, store', y) == UsedBit(sb, store, y);
  }

  lemma PutInodeShows(sb: Super, store: seq<Block>, icache: map<nat, Inode>, fs: Fs, i: nat)
    requires Shows(sb, store, icache, fs) && i < sb.ninodes && i in icache && SyncedBut(sb, store, fs, i)
    ensures var store' := store[sb.IBlock(i) := PutInode(store[sb.IBlock(i)], i % IPB, icache[i])];
      Shows(sb, store', icache, fs) && SyncedBut(sb, store', fs, sb.ninodes)
  {
    var store' := store[sb.IBlock(i) := PutInode(store[sb.IBlock(i)], i % IPB, icache[i])];
    forall j: nat | j < sb.ninodes ensures DiskInode(sb, store', j) == fs.inodes[j] {
      DiskInodeOfPut(sb, store, i, icache[i], j);
    }
    assert forall x: nat :: x < sb.size ==> UsedBit(sb, store', x) == UsedBit(sb, store, x);
  }

  lemma CacheShows(sb: Super, store: seq<Block>, icache: map<nat, Inode>, fs: Fs, i: nat, ip: Inode)
    requires Shows(sb, store, icache, fs) && i < sb.ninodes
    ensures Shows(sb, store, icache[i := ip], fs.(inodes := fs.inodes[i := ip]))
  {
  }

  /** The disk alone, without any cached inode, shows a file system in good order. */
  ghost predicate Mountable(sb: Super, disk: seq<Block>) {
    exists fs: Fs, owner: map<nat, Place> :: MountsAs(sb, disk, fs, owner)
  }

  ghost predicate MountsAs(sb: Super, disk: seq<Block>, fs: Fs, owner: map<nat, Place>) {
    Shows(sb, disk, map[], fs) && SyncedBut(sb, disk, fs, sb.ninodes) && Inv(fs, owner)
  }

  /** Between operations nothing is lost with the inode cache. */
  lemma SyncedMounts(sb: Super, store: seq<Block>, icache: map<nat, Inode>, fs: Fs, owner: map<nat, Place>)
    requires Shows(sb, store, icache, fs) && SyncedBut(sb, store, fs, sb.ninodes) && Inv(fs, owner)
    ensures MountsAs(sb, store, fs, owner) && Mountable(sb, store)
  {
    assert MountsAs(sb, store, fs, owner);
  }
}
