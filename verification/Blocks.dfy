/**
 * Disk blocks: BSIZE bytes, kept as the 32-bit words that the log header, the inodes and the indirect
 * blocks are made of, with the little-endian byte view that file contents use.
 */
module Blocks {
  import opened Common

  const BSIZE := 512
  const WORDS := 128

  type Byte = x: int | 0 <= x < 256
  type Words = s: seq<Uint> | |s| == WORDS witness seq(WORDS, i => 0)

  datatype Block = Block(words: Words)

  function ZeroBlock(): (b: Block)
    ensures forall i :: 0 <= i < WORDS ==> b.words[i] == 0
  {
    Block(seq(WORDS, i => 0))
  }

  /** The value of four bytes, least significant first. */
  function Join(b0: Byte, b1: Byte, b2: Byte, b3: Byte): Uint {
    b0 as int + 0x100 * b1 as int + 0x1_0000 * b2 as int + 0x100_0000 * b3 as int
  }

  function Split(w: Uint): seq<Byte> {
    [w % 0x100, w / 0x100 % 0x100, w / 0x1_0000 % 0x100, w / 0x100_0000]
  }

  lemma SplitJoin(b0: Byte, b1: Byte, b2: Byte, b3: Byte)
    ensures Split(Join(b0, b1, b2, b3)) == [b0, b1, b2, b3]
  {
    var w: int := Join(b0, b1, b2, b3);
    assert w / 0x100 == b1 + 0x100 * b2 as int + 0x1_0000 * b3 as int;
    assert w / 0x1_0000 == b2 + 0x100 * b3 as int;
    assert w / 0x100_0000 == b3 as int;
  }

  function BytesOf(ws: seq<Uint>): (s: seq<Byte>)
    ensures |s| == 4 * |ws|
  {
    if ws == [] then []
    else BytesOf(ws[..|ws| - 1]) + Split(ws[|ws| - 1])
  }

  function WordsOf(s: seq<Byte>): (ws: seq<Uint>)
    requires |s| % 4 == 0
    ensures 4 * |ws| == |s|
  {
    if s == [] then []
    else
      var n := |s| - 4;
      WordsOf(s[..n]) + [Join(s[n], s[n + 1], s[n + 2], s[n + 3])]
  }

  lemma BytesOfSnoc(ws: seq<Uint>, w: Uint)
    ensures BytesOf(ws + [w]) == BytesOf(ws) + Split(w)
  {
    assert (ws + [w])[..|ws|] == ws;
  }

  lemma BytesOfMore(t: seq<Byte>, ws: seq<Uint>, w: Uint, four: seq<Byte>)
    requires BytesOf(ws) == t && Split(w) == four
    ensures BytesOf(ws + [w]) == t + four
  {
    BytesOfSnoc(ws, w);
  }

  lemma {:induction false} BytesOfWordsOf(s: seq<Byte>)
    requires |s| % 4 == 0
    ensures BytesOf(WordsOf(s)) == s
  {
    if s != [] {
      var n := |s| - 4;
      var t, four := s[..n], s[n..];
      BytesOfWordsOf(t);
      var w := Join(s[n], s[n + 1], s[n + 2], s[n + 3]);
      assert Split(w) == four by { SplitJoin(s[n], s[n + 1], s[n + 2], s[n + 3]); }
      BytesOfMore(t, WordsOf(t), w, four);
      assert s == t + four;
    }
  }

  /** The block's contents as memmove sees them. */
  function Bytes(b: Block): (s: seq<Byte>)
    ensures |s| == BSIZE
  {
    BytesOf(b.words)
  }

  function FromBytes(s: seq<Byte>): Block
    requires |s| == BSIZE
  {
    Block(WordsOf(s))
  }

  lemma BytesOfFromBytes(s: seq<Byte>)
    requires |s| == BSIZE
    ensures Bytes(FromBytes(s)) == s
  {
    BytesOfWordsOf(s);
  }
}
