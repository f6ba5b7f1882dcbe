/** The bytes of the inode area and of the bitmap, as fs.h and fs.c address them. */
module FsBytes {
  import opened Common
  import opened Blocks
  import opened FsModel
  import opened FsLayout

  lemma {:induction false} ByteIs(ws: seq<Uint>, k: nat, j: nat)
    requires k < |ws| && j < 4
    ensures BytesOf(ws)[4 * k + j] == Split(ws[k])[j]
  {
    var n := |ws| - 1;
    if k < n { ByteIs(ws[..n], k, j); }
    hide Split;
  }

  lemma JoinSplit(w: Uint)
    ensures var s := Split(w); Join(s[0], s[1], s[2], s[3]) == w
  {
    assert w / 0x100 == w / 0x1_0000 * 0x100 + w / 0x100 % 0x100;
    assert w / 0x1_0000 == w / 0x100_0000 * 0x100 + w / 0x1_0000 % 0x100;
  }

  /** The short and the word that start at byte k, least significant byte first. */
  function ShortAt(s: seq<Byte>, k: nat): int
    requires k + 2 <= |s|
  {
    s[k] as int + 0x100 * s[k + 1] as int
  }

  function WordAt(s: seq<Byte>, k: nat): Uint
    requires k + 4 <= |s|
  {
    Join(s[k], s[k + 1], s[k + 2], s[k + 3])
  }

  lemma SplitIs(w: Uint)
    ensures var s := Split(w);
      && Join(s[0], s[1], s[2], s[3]) == w
      && s[0] as int + 0x100 * s[1] as int == w % 0x1_0000 && s[2] as int + 0x100 * s[3] as int == w / 0x1_0000
  {
    JoinSplit(w);
    assert w / 0x1_0000 == w / 0x100_0000 * 0x100 + w / 0x1_0000 % 0x100;
  }

  lemma WordIs(ws: seq<Uint>, k: nat)
    requires k < |ws|
    ensures WordAt(BytesOf(ws), 4 * k) == ws[k]
    ensures ShortAt(BytesOf(ws), 4 * k) == ws[k] % 0x1_0000
    ensures ShortAt(BytesOf(ws), 4 * k + 2) == ws[k] / 0x1_0000
  {
    hide BytesOf, Split, Join;
    ByteIs(ws, k, 0);
    ByteIs(ws, k, 1);
    ByteIs(ws, k, 2);
    ByteIs(ws, k, 3);
    SplitIs(ws[k]);
  }

  /** Inode i is the dinode at its byte offset in its block, field by field. */
  lemma InodeBytes(sb: Super, store: seq<Block>, i: nat)
    requires sb.Valid() && |store| == sb.size && i < sb.ninodes
    ensures var s, k, ip := Bytes(store[sb.inodeStart + i / 8]), i % 8 * 64, DiskInode(sb, store, i);
      && ip.kind == ShortAt(s, k) && ip.major == ShortAt(s, k + 2) && ip.minor == ShortAt(s, k + 4)
      && ip.nlink == ShortAt(s, k + 6) && ip.size == WordAt(s, k + 8)
      && forall j :: 0 <= j <= NDIRECT ==> ip.addrs[j] == WordAt(s, k + 12 + 4 * j)
  {
    hide BytesOf, ShortAt, WordAt;
    var ws, k := store[sb.IBlock(i)].words, i % IPB * 16;
    WordIs(ws, k);
    WordIs(ws, k + 1);
    WordIs(ws, k + 2);
    var ip := DiskInode(sb, store, i);
    forall j | 0 <= j <= NDIRECT ensures ip.addrs[j] == WordAt(BytesOf(ws), i % 8 * 64 + 12 + 4 * j) {
      WordIs(ws, k + 3 + j);
      assert 4 * (k + 3 + j) == i % 8 * 64 + 12 + 4 * j;
    }
  }

  // ---- the bitmap ----

  lemma BitHalf(w: nat, k: nat)
    ensures Bit(w, k + 1) == Bit(w / 2, k)
  {
  }

  lemma BitQuarter(w: nat, k: nat)
    ensures Bit(w, k + 2) == Bit(w / 4, k)
  {
    hide Bit;
    BitHalf(w, k + 1);
    BitHalf(w / 2, k);
    assert w / 2 / 2 == w / 4;
  }

  lemma BitNibble(w: nat, k: nat)
    ensures Bit(w, k + 4) == Bit(w / 16, k)
  {
    hide Bit;
    BitQuarter(w, k + 2);
    BitQuarter(w / 4, k);
    assert w / 4 / 4 == w / 16;
  }

  lemma BitByte(w: nat, k: nat)
    ensures Bit(w, k + 8) == Bit(w / 0x100, k)
  {
    hide Bit;
    BitNibble(w, k + 4);
    BitNibble(w / 16, k);
    assert w / 16 / 16 == w / 0x100;
  }

  /** Bits 0 to k of s are clear. */
  predicate Zeros(s: nat, k: nat) {
    s % 2 == 0 && (k > 0 ==> Zeros(s / 2, k - 1))
  }

  lemma {:induction false} ZerosLess(s: nat, k: nat, j: nat)
    requires Zeros(s, k) && j <= k
    ensures Zeros(s, j)
  {
    if j > 0 { ZerosLess(s / 2, k - 1, j - 1); }
  }

  lemma ZerosDouble(s: nat, k: nat)
    requires Zeros(s, k)
    ensures Zeros(2 * s, k + 1)
  {
  }

  lemma ZerosByte(q: nat)
    ensures Zeros(0x100 * q, 7)
  {
    assert Zeros(2 * q, 0);
    ZerosDouble(2 * q, 0);
    ZerosDouble(4 * q, 1);
    ZerosDouble(8 * q, 2);
    ZerosDouble(16 * q, 3);
    ZerosDouble(32 * q, 4);
    ZerosDouble(64 * q, 5);
    ZerosDouble(128 * q, 6);
  }

  lemma {:induction false} BitPlus(r: nat, s: nat, k: nat)
    requires Zeros(s, k)
    ensures Bit(r + s, k) == Bit(r, k)
  {
    if k > 0 {
      assert (r + s) / 2 == r / 2 + s / 2;
      BitPlus(r / 2, s / 2, k - 1);
    }
  }

  lemma LowBits(w: nat, k: nat)
    requires k < 8
    ensures Bit(w % 0x100, k) == Bit(w, k)
  {
    var q := w / 0x100;
    ZerosByte(q);
    ZerosLess(0x100 * q, 7, k);
    BitPlus(w % 0x100, 0x100 * q, k);
  }

  /** Bit k of a word is bit k % 8 of its byte k / 8. */
  lemma BitOfByte(w: Uint, k: nat)
    requires k < 32
    ensures Bit(w, k) == Bit(Split(w)[k / 8], k % 8)
  {
    hide Bit;
    var q, r := k / 8, k % 8;
    if q >= 1 { BitByte(w, k - 8); }
    if q >= 2 { BitByte(w / 0x100, k - 16); }
    if q >= 3 { BitByte(w / 0x1_0000, k - 24); }
    assert w / 0x100 / 0x100 == w / 0x1_0000 && w / 0x1_0000 / 0x100 == w / 0x100_0000;
    var v := if q == 0 then w else if q == 1 then w / 0x100 else if q == 2 then w / 0x1_0000 else w / 0x100_0000;
    LowBits(v, r);
  }

  /** Block b is in use exactly if bit b % 8 is set in byte b % BPB / 8 of its bitmap block. */
  lemma BitmapBytes(sb: Super, store: seq<Block>, b: nat)
    requires sb.Valid() && |store| == sb.size && b < sb.size
    ensures UsedBit(sb, store, b) <==> Bit(Bytes(store[sb.bmapStart + b / 4096])[b % 4096 / 8], b % 8)
  {
    hide BytesOf, Bit, Split;
    var ws, k := store[sb.BBlock(b)].words, b % BPB / 32;
    BitInWord(b);
    BytePosition(b);
    BitOfByte(ws[k], b % 32);
    ByteIs(ws, k, b % 32 / 8);
  }

  lemma BytePosition(b: nat)
    ensures 4 * (b % BPB / 32) + b % 32 / 8 == b % BPB / 8 && b % 32 % 8 == b % 8
  {
    BitInWord(b);
    var bi := b % BPB;
    assert bi == 32 * (bi / 32) + bi % 32;
    var q, r := bi / 32, bi % 32;
    assert bi / 8 == 4 * q + r / 8;
    assert b == 32 * (b / 32) + b % 32;
  }
}
