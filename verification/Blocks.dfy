/** Disk blocks as bytes, with the two other ways the kernel looks at them: as little-endian
    32-bit words (index blocks, the log header) and as bits (the free map). */
module Blocks {

  const BSIZE := 512
  const WORDS := 128  // BSIZE / sizeof(uint)
  const UINT := 0x1_0000_0000

  type Byte = x: nat | x < 256
  type Uint = x: nat | x < UINT
  type Block = b: seq<Byte> | |b| == 512 witness seq(512, _ => 0)
  type Disk = seq<Block>

  function ZeroBlock(): Block {
    seq(BSIZE, _ => 0)
  }

  // ---------------------------------------------------------------- words

  function FromBytes(b0: Byte, b1: Byte, b2: Byte, b3: Byte): Uint {
    b0 as nat + 0x100 * b1 + 0x1_0000 * b2 + 0x100_0000 * b3
  }

  function Word(b: Block, i: nat): Uint
    requires i < WORDS
  {
    FromBytes(b[4*i], b[4*i+1], b[4*i+2], b[4*i+3])
  }

  function SetWord(b: Block, i: nat, w: Uint): Block
    requires i < WORDS
  {
    b[4*i := w % 0x100][4*i+1 := w / 0x100 % 0x100][4*i+2 := w / 0x1_0000 % 0x100][4*i+3 := w / 0x100_0000]
  }

  lemma {:induction false} BytesOfWord(w: Uint)
    ensures FromBytes(w % 0x100, w / 0x100 % 0x100, w / 0x1_0000 % 0x100, w / 0x100_0000) == w
  {
    var q1, q2 := w / 0x100, w / 0x1_0000;
    assert q2 == q1 / 0x100;
    assert w / 0x100_0000 == q2 / 0x100;
  }

  /** Writing one word of a block changes that word and no other. */
  lemma {:induction false} WordSetWord(b: Block, i: nat, w: Uint, j: nat)
    requires i < WORDS && j < WORDS
    ensures Word(SetWord(b, i, w), j) == if i == j then w else Word(b, j)
  {
    var c := SetWord(b, i, w);
    if i == j {
      BytesOfWord(w);
    } else {
      assert c[4*j] == b[4*j] && c[4*j+1] == b[4*j+1] && c[4*j+2] == b[4*j+2] && c[4*j+3] == b[4*j+3];
    }
  }

  lemma {:induction false} WordZero(i: nat)
    requires i < WORDS
    ensures Word(ZeroBlock(), i) == 0
  {
  }

  // ---------------------------------------------------------------- bits

  function Pow2(k: nat): (p: nat)
    ensures p > 0
  {
    if k == 0 then 1 else 2 * Pow2(k - 1)
  }

  /** Bit `k` of `x`: `(x & (1 << k)) != 0`. */
  predicate Bit(x: nat, k: nat) {
    if k == 0 then x % 2 == 1 else Bit(x / 2, k - 1)
  }

  /** `x | (1 << k)` on numbers of `m` bits. */
  function OrBit(x: nat, k: nat, m: nat): (r: nat)
    requires k < m && x < Pow2(m)
    ensures r < Pow2(m)
    ensures Bit(r, k)
  {
    if k == 0 then x / 2 * 2 + 1 else 2 * OrBit(x / 2, k - 1, m - 1) + x % 2
  }

  /** `x & ~(1 << k)` on numbers of `m` bits. */
  function AndNotBit(x: nat, k: nat, m: nat): (r: nat)
    requires k < m && x < Pow2(m)
    ensures r < Pow2(m)
    ensures !Bit(r, k)
  {
    if k == 0 then x / 2 * 2 else 2 * AndNotBit(x / 2, k - 1, m - 1) + x % 2
  }

  /** Setting one bit leaves the others alone. */
  lemma {:induction false} OrBitOthers(x: nat, k: nat, m: nat, j: nat)
    requires k < m && x < Pow2(m) && j != k
    ensures Bit(OrBit(x, k, m), j) == Bit(x, j)
  {
    if k > 0 && j > 0 {
      OrBitOthers(x / 2, k - 1, m - 1, j - 1);
      assert OrBit(x, k, m) / 2 == OrBit(x / 2, k - 1, m - 1);
    }
  }

  /** Clearing one bit leaves the others alone. */
  lemma {:induction false} AndNotBitOthers(x: nat, k: nat, m: nat, j: nat)
    requires k < m && x < Pow2(m) && j != k
    ensures Bit(AndNotBit(x, k, m), j) == Bit(x, j)
  {
    if k > 0 && j > 0 {
      AndNotBitOthers(x / 2, k - 1, m - 1, j - 1);
      assert AndNotBit(x, k, m) / 2 == AndNotBit(x / 2, k - 1, m - 1);
    }
  }

  /** Setting a bit that is clear adds its value, clearing one that is set takes it off. */
  lemma {:induction false} BitValue(x: nat, k: nat, m: nat)
    requires k < m && x < Pow2(m)
    ensures OrBit(x, k, m) == if Bit(x, k) then x else x + Pow2(k)
    ensures AndNotBit(x, k, m) + (if Bit(x, k) then Pow2(k) else 0) == x
  {
    if k > 0 {
      BitValue(x / 2, k - 1, m - 1);
    }
  }

  lemma {:induction false} EightBits()
    ensures Pow2(8) == 256
  {
  }

  // ---------------------------------------------------------------- runs of words

  /** Words `ws` stored from word `i` on. */
  function PutWords(b: Block, i: nat, ws: seq<Uint>): Block
    requires i + |ws| <= WORDS
  {
    if ws == [] then b
    else SetWord(PutWords(b, i, ws[..|ws|-1]), i + |ws| - 1, ws[|ws|-1])
  }

  lemma {:induction false} WordPutWords(b: Block, i: nat, ws: seq<Uint>, j: nat)
    requires i + |ws| <= WORDS && j < WORDS
    ensures Word(PutWords(b, i, ws), j) == if i <= j < i + |ws| then ws[j-i] else Word(b, j)
  {
    if ws != [] {
      var front := ws[..|ws|-1];
      WordPutWords(b, i, front, j);
      WordSetWord(PutWords(b, i, front), i + |ws| - 1, ws[|ws|-1], j);
    }
  }
}
