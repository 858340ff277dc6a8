/** Blocks of the file system as bytes, and the three ways fs.c reads them: 32-bit words of
    an inode or an indirect table, bits of the free map, and file data. */
module FsDisk {
  import opened Common

  const BSIZE: nat := 1024
  const NDIRECT: nat := 12
  const NINDIRECT: nat := 256
  const MAXFILE: nat := 268          // NDIRECT + NINDIRECT
  const BPB: nat := 8192             // bits per block
  const IPB: nat := 16               // inodes per block

  type Byte = x: nat | x < 256
  type UWord = v: nat | v < UINT
  type Block = s: seq<Byte> | |s| == 1024 witness seq(1024, _ => 0)

  function ZeroBlock(): Block { seq(1024, _ => 0) }

  // ----- little-endian words -----

  function Join(b0: Byte, b1: Byte, b2: Byte, b3: Byte): UWord {
    var (v0: nat, v1: nat, v2: nat, v3: nat) := (b0, b1, b2, b3);
    v0 + 0x100 * v1 + 0x1_0000 * v2 + 0x100_0000 * v3
  }

  function Digit(v: UWord, k: nat): Byte
    requires k < 4
  {
    if k == 0 then v % 256 else if k == 1 then v / 0x100 % 256
    else if k == 2 then v / 0x1_0000 % 256 else v / 0x100_0000
  }

  function Word(b: Block, j: nat): UWord
    requires j < 256
  {
    Join(b[4 * j], b[4 * j + 1], b[4 * j + 2], b[4 * j + 3])
  }

  function PutWord(b: Block, j: nat, v: UWord): Block
    requires j < 256
  {
    b[4 * j := Digit(v, 0)][4 * j + 1 := Digit(v, 1)][4 * j + 2 := Digit(v, 2)][4 * j + 3 := Digit(v, 3)]
  }

  lemma JoinDigits(v: UWord)
    ensures Join(Digit(v, 0), Digit(v, 1), Digit(v, 2), Digit(v, 3)) == v
  {
    assert v / 0x1_0000 == v / 0x100 / 256 && v / 0x100_0000 == v / 0x1_0000 / 256;
  }

  /** A stored word reads back, and the other words stay. */
  lemma PutWordReads(b: Block, j: nat, v: UWord, k: nat)
    requires j < 256 && k < 256
    ensures Word(PutWord(b, j, v), k) == if k == j then v else Word(b, k)
  {
    hide Join, Digit;
    JoinDigits(v);
  }

  lemma ZeroWords(j: nat)
    requires j < 256
    ensures Word(ZeroBlock(), j) == 0
  {
  }

  // ----- bits -----

  function ToBits(v: Byte): bv8 { v as bv8 }

  function FromBits(x: bv8): Byte { x as nat }

  function Mask(k: nat): bv8
    requires k < 8
  {
    (1 as bv8) << k
  }

  /** x & (1 << k), x | (1 << k), x & ~(1 << k). */
  predicate Has(x: bv8, k: nat)
    requires k < 8
  {
    x & Mask(k) != 0
  }

  function With(x: bv8, k: nat): bv8
    requires k < 8
  {
    x | Mask(k)
  }

  function Without(x: bv8, k: nat): bv8
    requires k < 8
  {
    x & !Mask(k)
  }

  lemma SetBits(x: bv8, k: nat, j: nat)
    requires k < 8 && j < 8
    ensures ((x | Mask(k)) & Mask(j) != 0) == (x & Mask(j) != 0 || j == k)
  {
  }

  lemma ClearBits(x: bv8, k: nat, j: nat)
    requires k < 8 && j < 8
    ensures ((x & !Mask(k)) & Mask(j) != 0) == (x & Mask(j) != 0 && j != k)
  {
  }

  lemma WithHas(x: bv8, k: nat, j: nat)
    requires k < 8 && j < 8
    ensures Has(With(x, k), j) == (Has(x, j) || j == k)
  {
    hide Mask;
    SetBits(x, k, j);
  }

  lemma WithoutHas(x: bv8, k: nat, j: nat)
    requires k < 8 && j < 8
    ensures Has(Without(x, k), j) == (Has(x, j) && j != k)
  {
    hide Mask;
    ClearBits(x, k, j);
  }

  lemma BackToBits(x: bv8)
    ensures ToBits(FromBits(x)) == x
  {
  }

  predicate Bit(b: Block, i: nat)
    requires i < BPB
  {
    Has(ToBits(b[i / 8]), i % 8)
  }

  function SetBit(b: Block, i: nat): Block
    requires i < BPB
  {
    b[i / 8 := FromBits(With(ToBits(b[i / 8]), i % 8))]
  }

  function ClearBit(b: Block, i: nat): Block
    requires i < BPB
  {
    b[i / 8 := FromBits(Without(ToBits(b[i / 8]), i % 8))]
  }

  /** Setting or clearing a bit changes that bit alone. */
  lemma BitsSeparate(b: Block, i: nat, k: nat)
    requires i < BPB && k < BPB
    ensures Bit(SetBit(b, i), k) == (Bit(b, k) || k == i)
    ensures Bit(ClearBit(b, i), k) == (Bit(b, k) && k != i)
  {
    hide Has, With, Without, ToBits, FromBits;
    if k / 8 == i / 8 {
      var x := ToBits(b[i / 8]);
      WithHas(x, i % 8, k % 8);
      WithoutHas(x, i % 8, k % 8);
      BackToBits(With(x, i % 8));
      BackToBits(Without(x, i % 8));
    }
  }
}
