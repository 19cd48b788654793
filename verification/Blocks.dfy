/** Fixed-size blocks, read either as 512 words or as 4096 bytes.

    The program keeps a block in a `char` buffer and casts it to `ssize_t*`
    when it holds block numbers.  Here the words are the primary view and the
    bytes are derived from them: eight bytes a word, least significant first,
    two's complement. */
module Blocks {
  const BLOCK_SIZE: int := 4096
  const ADDRESS_SIZE: int := 8
  const K: int := 512 // addresses per block
  const TWO63: int := 0x8000_0000_0000_0000
  const TWO64: int := 0x1_0000_0000_0000_0000

  type byte = x: int | 0 <= x < 256

  type Block = b: seq<int> | |b| == K witness seq(K, _ => 0)

  function ZeroBlock(): (b: Block) {
    seq(K, _ => 0)
  }

  function Zeros(n: nat): (s: seq<byte>)
    ensures |s| == n
  {
    seq(n, _ => 0)
  }

  /** The `n` low bytes of `v`, least significant first. */
  function LittleEndian(v: nat, n: nat): (s: seq<byte>)
    ensures |s| == n
  {
    if n == 0 then [] else [v % 256] + LittleEndian(v / 256, n - 1)
  }

  function FromLittleEndian(s: seq<byte>): nat {
    if s == [] then 0 else s[0] + 256 * FromLittleEndian(s[1..])
  }

  function Pow256(n: nat): nat {
    if n == 0 then 1 else 256 * Pow256(n - 1)
  }

  lemma {:induction false} LittleEndianInverse(s: seq<byte>)
    ensures FromLittleEndian(s) < Pow256(|s|)
    ensures LittleEndian(FromLittleEndian(s), |s|) == s
  {
    if s != [] {
      LittleEndianInverse(s[1..]);
      assert s == [s[0]] + s[1..];
    }
  }

  lemma {:induction false} FromLittleEndianInverse(v: nat, n: nat)
    requires v < Pow256(n)
    ensures FromLittleEndian(LittleEndian(v, n)) == v
  {
    if n != 0 {
      FromLittleEndianInverse(v / 256, n - 1);
      assert LittleEndian(v, n)[1..] == LittleEndian(v / 256, n - 1);
    }
  }

  lemma Pow256Values()
    ensures Pow256(2) == 0x1_0000
    ensures Pow256(8) == TWO64
  {
    assert Pow256(4) == 0x1_0000_0000;
    assert Pow256(6) == 0x1_0000_0000_0000;
  }

  /** The signed value of an eight-byte word. */
  function WordOfBytes(s: seq<byte>): int
    requires |s| == ADDRESS_SIZE
  {
    var u := FromLittleEndian(s);
    if u >= TWO63 then u - TWO64 else u
  }

  function BytesOfWord(v: int): (s: seq<byte>)
    ensures |s| == ADDRESS_SIZE
  {
    LittleEndian(v % TWO64, ADDRESS_SIZE)
  }

  lemma WordBytesInverse(s: seq<byte>)
    requires |s| == ADDRESS_SIZE
    ensures BytesOfWord(WordOfBytes(s)) == s
    ensures -TWO63 <= WordOfBytes(s) < TWO63
  {
    hide LittleEndian, FromLittleEndian, Pow256;
    LittleEndianInverse(s);
    Pow256Values();
  }

  lemma BytesWordInverse(v: int)
    requires -TWO63 <= v < TWO63
    ensures WordOfBytes(BytesOfWord(v)) == v
  {
    Pow256Values();
    FromLittleEndianInverse(v % TWO64, ADDRESS_SIZE);
  }

  function FlattenWords(ws: seq<int>): (s: seq<byte>)
    ensures |s| == ADDRESS_SIZE * |ws|
  {
    if ws == [] then [] else BytesOfWord(ws[0]) + FlattenWords(ws[1..])
  }

  function GroupBytes(s: seq<byte>): (ws: seq<int>)
    requires |s| % ADDRESS_SIZE == 0
    ensures |ws| == |s| / ADDRESS_SIZE
  {
    if s == [] then [] else [WordOfBytes(s[..8])] + GroupBytes(s[8..])
  }

  /** A block as the bytes the program copies in and out of it. */
  function BytesOf(b: Block): (s: seq<byte>)
    ensures |s| == BLOCK_SIZE
  {
    FlattenWords(b)
  }

  function BlockOf(s: seq<byte>): (b: Block)
    requires |s| == BLOCK_SIZE
  {
    GroupBytes(s)
  }

  lemma {:induction false} FlattenGroupInverse(s: seq<byte>)
    requires |s| % ADDRESS_SIZE == 0
    ensures FlattenWords(GroupBytes(s)) == s
  {
    if s != [] {
      FlattenGroupInverse(s[8..]);
      WordBytesInverse(s[..8]);
      assert GroupBytes(s)[1..] == GroupBytes(s[8..]);
      assert s == s[..8] + s[8..];
    }
  }

  lemma {:induction false} GroupFlattenInverse(ws: seq<int>)
    requires forall i :: 0 <= i < |ws| ==> -TWO63 <= ws[i] < TWO63
    ensures GroupBytes(FlattenWords(ws)) == ws
  {
    if ws != [] {
      GroupFlattenInverse(ws[1..]);
      BytesWordInverse(ws[0]);
      var s := FlattenWords(ws);
      assert s[..8] == BytesOfWord(ws[0]) && s[8..] == FlattenWords(ws[1..]);
      assert ws == [ws[0]] + ws[1..];
    }
  }

  /** Writing bytes to a block and reading them back gives the same bytes. */
  lemma BytesRoundTrip(s: seq<byte>)
    requires |s| == BLOCK_SIZE
    ensures BytesOf(BlockOf(s)) == s
  {
    FlattenGroupInverse(s);
  }

  /** Block numbers survive the trip through the byte buffer. */
  lemma WordsRoundTrip(b: Block)
    requires forall i :: 0 <= i < K ==> -TWO63 <= b[i] < TWO63
    ensures BlockOf(BytesOf(b)) == b
  {
    GroupFlattenInverse(b);
  }

  /** The value of eight bytes, the least significant first. */
  function Value(s: seq<byte>): int
    requires |s| == 8
  {
    var b: seq<int> := s;
    b[0] + 0x100 * b[1] + 0x1_0000 * b[2] + 0x100_0000 * b[3] + 0x1_0000_0000 * b[4]
    + 0x100_0000_0000 * b[5] + 0x1_0000_0000_0000 * b[6] + 0x100_0000_0000_0000 * b[7]
  }

  lemma ValueIs(s: seq<byte>)
    requires |s| == 8
    ensures FromLittleEndian(s) == Value(s)
  {
    assert s[1..][1..] == s[2..] && s[2..][1..] == s[3..] && s[3..][1..] == s[4..] && s[4..][1..] == s[5..];
    assert s[5..][1..] == s[6..] && s[6..][1..] == s[7..] && s[7..][1..] == [];
    var b: seq<int> := s;
    assert FromLittleEndian(s[7..]) == b[7];
    assert FromLittleEndian(s[5..]) == b[5] + 0x100 * b[6] + 0x1_0000 * b[7];
    assert FromLittleEndian(s[3..]) == b[3] + 0x100 * b[4] + 0x1_0000 * b[5] + 0x100_0000 * b[6] + 0x1_0000_0000 * b[7];
    assert FromLittleEndian(s[1..]) ==
      b[1] + 0x100 * b[2] + 0x1_0000 * b[3] + 0x100_0000 * b[4] + 0x1_0000_0000 * b[5]
      + 0x100_0000_0000 * b[6] + 0x1_0000_0000_0000 * b[7];
  }

  lemma WordValue(v: int)
    ensures Value(BytesOfWord(v)) == v % 0x1_0000_0000_0000_0000
  {
    hide Value;
    Pow256Values();
    FromLittleEndianInverse(v % TWO64, 8);
    ValueIs(BytesOfWord(v));
  }

  lemma {:induction false} FlattenAt(ws: seq<int>, i: nat, k: nat)
    requires i < |ws| && k < ADDRESS_SIZE
    ensures FlattenWords(ws)[ADDRESS_SIZE * i + k] == BytesOfWord(ws[i])[k]
  {
    hide BytesOfWord;
    if i > 0 {
      FlattenAt(ws[1..], i - 1, k);
    }
  }

  /** The program casts between bytes and words: word `i` is the eight bytes from `8 * i` on,
      the least significant first, in two's complement. */
  lemma ByteLayout(b: Block, i: nat)
    requires i < 512
    ensures Value(BytesOf(b)[8 * i..8 * i + 8]) == b[i] % 0x1_0000_0000_0000_0000
  {
    hide FlattenWords, BytesOfWord, Value;
    forall k: nat | k < 8 ensures BytesOf(b)[8 * i + k] == BytesOfWord(b[i])[k] {
      FlattenAt(b, i, k);
    }
    assert BytesOf(b)[8 * i..8 * i + 8] == BytesOfWord(b[i]);
    WordValue(b[i]);
  }

  lemma ZeroWord()
    ensures BytesOfWord(0) == Zeros(8)
  {
    assert LittleEndian(0, 4) == [0, 0, 0, 0];
    assert LittleEndian(0, 6) == [0, 0] + LittleEndian(0, 4);
    assert LittleEndian(0, 8) == [0, 0] + LittleEndian(0, 6);
  }

  lemma {:induction false} FlattenZeros(ws: seq<int>)
    requires forall i :: 0 <= i < |ws| ==> ws[i] == 0
    ensures FlattenWords(ws) == Zeros(8 * |ws|)
  {
    if ws != [] {
      FlattenZeros(ws[1..]);
      ZeroWord();
    }
  }

  /** The zero block reads as zero words and as zero bytes. */
  lemma ZeroBlockBytes()
    ensures BytesOf(ZeroBlock()) == Zeros(BLOCK_SIZE)
  {
    FlattenZeros(ZeroBlock());
  }
}
