/** A disk without files, as a file system that is in order: every layout has one. */
module FsFormat {
  import opened Common
  import opened Blocks
  import opened FsModel
  import opened FsLayout

  /** A disk of zeros with the bits of the first k blocks set. */
  ghost function Marked(sb: Super, k: nat): (disk: seq<Block>)
    requires sb.Valid() && k <= sb.size
    ensures |disk| == sb.size
  {
    if k == 0 then seq(sb.size, b => ZeroBlock())
    else
      var d := Marked(sb, k - 1);
      d[sb.BBlock(k - 1) := PutUsed(d[sb.BBlock(k - 1)], (k - 1) % BPB, true)]
  }

  lemma {:induction false} ZeroBit(k: nat)
    ensures !Bit(0, k)
  {
    if k > 0 { ZeroBit(k - 1); }
  }

  lemma {:induction false} MarkedBits(sb: Super, k: nat, b: nat)
    requires sb.Valid() && k <= sb.size && b < sb.size
    ensures UsedBit(sb, Marked(sb, k), b) <==> b < k
  {
    hide Bit, PutUsed;
    if k == 0 {
      ZeroBit(b % 32);
    } else {
      MarkedBits(sb, k - 1, b);
      UsedBitOfPut(sb, Marked(sb, k - 1), k - 1, true, b);
    }
  }

  /** Marking touches nothing before the bitmap. */
  lemma {:induction false} MarkedBefore(sb: Super, k: nat, b: nat)
    requires sb.Valid() && k <= sb.size && b < sb.bmapStart
    ensures Marked(sb, k)[b] == ZeroBlock()
  {
    hide PutUsed;
    if k > 0 { MarkedBefore(sb, k - 1, b); }
  }

  function NoInode(): Inode { Inode(0, 0, 0, 0, 0, seq(NDIRECT + 1, k => 0)) }

  ghost function BlankFs(sb: Super): Fs
    requires sb.Valid()
  {
    Fs(sb.dataStart, seq(sb.size, b => b < sb.dataStart), seq(sb.ninodes, i => NoInode()),
       map b | sb.dataStart <= b < sb.size :: Marked(sb, sb.dataStart)[b])
  }

  /** Every layout has a disk that mounts: the one without files. */
  lemma BlankMounts(sb: Super)
    requires sb.Valid()
    ensures Mountable(sb, Marked(sb, sb.dataStart))
  {
    var disk, fs := Marked(sb, sb.dataStart), BlankFs(sb);
    BlankInv(fs);
    hide Inv;
    forall b: nat | b < sb.size ensures fs.used[b] == UsedBit(sb, disk, b) { MarkedBits(sb, sb.dataStart, b); }
    forall i: nat | i < sb.ninodes ensures DiskInode(sb, disk, i) == fs.inodes[i] {
      MarkedBefore(sb, sb.dataStart, sb.IBlock(i));
      ZeroInode(i % IPB * 16);
    }
    assert MountsAs(sb, disk, fs, map[]);
  }

  lemma ZeroInode(k: nat)
    requires k + 16 <= WORDS
    ensures InodeOf(ZeroBlock().words[k..k + 16]) == NoInode()
  {
    var ws := ZeroBlock().words[k..k + 16];
    assert forall j :: 0 <= j < 16 ==> ws[j] == 0;
    assert ws[3..16] == seq(NDIRECT + 1, j => 0);
  }
}
