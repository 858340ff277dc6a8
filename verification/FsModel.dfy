/** The file system as a value: blocks, inodes, and who refers to which block. */
module FsModel {
  import opened FsDisk

  /** The superblock, and the number `nmeta` of blocks before the data area. */
  datatype Super = Super(size: nat, ninodes: nat, inodestart: nat, bmapstart: nat, nmeta: nat)

  predicate GoodSuper(sb: Super) {
    && 0 < sb.inodestart && sb.inodestart + sb.ninodes / IPB < sb.bmapstart
    && sb.bmapstart + sb.size / BPB < sb.nmeta <= sb.size < 0x7FFF_0000   // block numbers are ints
  }

  function IBlock(sb: Super, i: nat): nat { i / IPB + sb.inodestart }

  function BBlock(sb: Super, b: nat): nat { b / BPB + sb.bmapstart }

  /** An inode: type, major, minor and nlink as two words, the size, twelve block numbers and
      the number of the indirect block. */
  datatype Inode = Inode(head: (UWord, UWord), size: UWord, addrs: seq<UWord>)
  type Node = n: Inode | |n.addrs| == 13 witness Inode((0, 0), 0, seq(13, _ => 0))

  /** Number of reference slots of an inode: 12 direct, the indirect block, its 256 entries. */
  const SLOTS: nat := 269

  /** `owner` names, for every block in use for data, the slot that refers to it. */
  datatype Fs = Fs(sb: Super, disk: seq<Block>, nodes: seq<Node>, owner: map<nat, (nat, nat)>)

  function RefIn(disk: seq<Block>, n: Node, k: nat): nat
    requires k < SLOTS
  {
    if k <= 12 then n.addrs[k]
    else if n.addrs[12] == 0 || n.addrs[12] >= |disk| then 0
    else Word(disk[n.addrs[12]], k - 13)
  }

  /** The block number in slot `k` of inode `i`, 0 for none. */
  function RefOf(fs: Fs, i: nat, k: nat): nat
    requires i < |fs.nodes| && k < SLOTS
  {
    RefIn(fs.disk, fs.nodes[i], k)
  }

  /** The slot for block `bn` of a file. */
  function SlotFor(bn: nat): nat { if bn < NDIRECT then bn else bn + 1 }

  function DataBlock(fs: Fs, i: nat, bn: nat): nat
    requires i < |fs.nodes| && bn < MAXFILE
  {
    RefOf(fs, i, SlotFor(bn))
  }

  predicate Used(fs: Fs, b: nat)
    requires BBlock(fs.sb, b) < |fs.disk|
  {
    Bit(fs.disk[BBlock(fs.sb, b)], b % BPB)
  }

  // ----- block accounting -----

  predicate OwnerOk(fs: Fs, b: nat)
    requires b in fs.owner
  {
    && fs.sb.nmeta <= b < fs.sb.size && fs.owner[b].0 < |fs.nodes| && fs.owner[b].1 < SLOTS
    && RefOf(fs, fs.owner[b].0, fs.owner[b].1) == b
  }

  predicate RefOk(fs: Fs, i: nat, k: nat)
    requires i < |fs.nodes| && k < SLOTS
  {
    var b := RefOf(fs, i, k);
    b != 0 ==> b in fs.owner && fs.owner[b] == (i, k)
  }

  /** Every block is referred to by at most one slot, and lies in the data area if it is. */
  ghost predicate Linked(fs: Fs) {
    && GoodSuper(fs.sb) && |fs.disk| == fs.sb.size && |fs.nodes| == fs.sb.ninodes
    && (forall b {:trigger OwnerOk(fs, b)} :: b in fs.owner ==> OwnerOk(fs, b))
    && (forall i: nat, k: nat {:trigger RefOk(fs, i, k)} {:trigger RefOf(fs, i, k)} :: i < |fs.nodes| && k < SLOTS ==>
       RefOk(fs, i, k))
  }

  /** The free map marks the metadata, the blocks referred to, and the blocks of `pend`,
      which an operation has taken but not linked yet, or unlinked but not given back. */
  ghost predicate Marked(fs: Fs, pend: set<nat>)
    requires GoodSuper(fs.sb) && |fs.disk| == fs.sb.size
  {
    && (forall b {:trigger b in pend} :: b in pend ==> fs.sb.nmeta <= b < fs.sb.size && b !in fs.owner)
    && (forall b: nat {:trigger Used(fs, b)} :: b < fs.sb.size ==>
       (Used(fs, b) <==> b < fs.sb.nmeta || b in fs.owner || b in pend))
  }

  ghost predicate Good(fs: Fs, pend: set<nat>) { Linked(fs) && Marked(fs, pend) }

  // ----- file contents -----

  function ByteAt(fs: Fs, i: nat, o: nat): Byte
    requires i < |fs.nodes|
  {
    if o / BSIZE >= MAXFILE then 0
    else
      var b := DataBlock(fs, i, o / BSIZE);
      if b == 0 || b >= |fs.disk| then 0 else fs.disk[b][o % BSIZE]
  }

  /** Every block that holds bytes of the file exists. */
  ghost predicate NoHoles(fs: Fs, i: nat)
    requires i < |fs.nodes|
  {
    && fs.nodes[i].size <= MAXFILE * BSIZE
    && forall bn: nat {:trigger DataBlock(fs, i, bn)} :: bn < MAXFILE && bn * BSIZE < fs.nodes[i].size ==>
       DataBlock(fs, i, bn) != 0
  }

  /** The file as one byte sequence. */
  ghost function File(fs: Fs, i: nat): seq<Byte>
    requires i < |fs.nodes|
  {
    seq(fs.nodes[i].size, (o: nat) => ByteAt(fs, i, o))
  }

  // ----- inodes on disk -----

  function WordsFrom(b: Block, j: nat, n: nat): (s: seq<UWord>)
    requires j + n <= 256
    ensures |s| == n && forall k :: 0 <= k < n ==> s[k] == Word(b, j + k)
    decreases n
  {
    if n == 0 then [] else WordsFrom(b, j, n - 1) + [Word(b, j + n - 1)]
  }

  function Decode(b: Block, slot: nat): Node
    requires slot < IPB
  {
    var o := 16 * slot;
    Inode((Word(b, o), Word(b, o + 1)), Word(b, o + 2), WordsFrom(b, o + 3, 13))
  }

  function InodeAt(fs: Fs, i: nat): Node
    requires IBlock(fs.sb, i) < |fs.disk|
  {
    Decode(fs.disk[IBlock(fs.sb, i)], i % IPB)
  }

  // ----- writing one block -----

  function Put(fs: Fs, x: nat, blk: Block): Fs
    requires x < |fs.disk|
  {
    fs.(disk := fs.disk[x := blk])
  }

  /** No inode uses block `x` as its indirect block. */
  predicate NotATable(fs: Fs, x: nat) { x in fs.owner ==> fs.owner[x].1 != 12 }

  lemma PutRef(fs: Fs, x: nat, blk: Block, i: nat, k: nat)
    requires Linked(fs) && x < |fs.disk| && NotATable(fs, x) && i < |fs.nodes| && k < SLOTS
    ensures RefOf(Put(fs, x, blk), i, k) == RefOf(fs, i, k)
  {
    assert RefOk(fs, i, 12);
  }

  lemma PutLinked(fs: Fs, x: nat, blk: Block)
    requires Linked(fs) && x < |fs.disk| && NotATable(fs, x)
    ensures Linked(Put(fs, x, blk))
    ensures forall i: nat, k: nat {:trigger RefOf(Put(fs, x, blk), i, k)} :: i < |fs.nodes| && k < SLOTS ==>
              RefOf(Put(fs, x, blk), i, k) == RefOf(fs, i, k)
  {
    hide RefOf;
    var fs' := Put(fs, x, blk);
    forall i: nat, k: nat | i < |fs.nodes| && k < SLOTS
      ensures RefOf(fs', i, k) == RefOf(fs, i, k) && RefOk(fs', i, k)
    {
      PutRef(fs, x, blk, i, k);
      assert RefOk(fs, i, k);
    }
    forall b | b in fs'.owner
      ensures OwnerOk(fs', b)
    {
      assert OwnerOk(fs, b);
    }
  }

  /** A write to block `x` shows in the files exactly where they use block `x`. */
  lemma PutByte(fs: Fs, x: nat, blk: Block, i: nat, o: nat)
    requires Linked(fs) && 0 < x < |fs.disk| && NotATable(fs, x) && i < |fs.nodes|
    ensures ByteAt(Put(fs, x, blk), i, o) ==
            if o / BSIZE < MAXFILE && DataBlock(fs, i, o / BSIZE) == x then blk[o % BSIZE] else ByteAt(fs, i, o)
  {
    if o / BSIZE < MAXFILE {
      PutRef(fs, x, blk, i, SlotFor(o / BSIZE));
    }
  }

  /** Nothing a file or a reference depends on has changed. */
  ghost predicate Kept(fs: Fs, fs': Fs) {
    && fs'.sb == fs.sb && fs'.nodes == fs.nodes && |fs'.disk| == |fs.disk|
    && (forall i: nat, k: nat {:trigger RefOf(fs', i, k)} :: i < |fs.nodes| && k < SLOTS ==>
       RefOf(fs', i, k) == RefOf(fs, i, k))
    && (forall i: nat, o: nat {:trigger ByteAt(fs', i, o)} :: i < |fs.nodes| ==> ByteAt(fs', i, o) == ByteAt(fs, i, o))
  }

  /** A block no slot refers to may be written. */
  lemma PutKept(fs: Fs, x: nat, blk: Block)
    requires Linked(fs) && 0 < x < |fs.disk| && x !in fs.owner
    ensures Linked(Put(fs, x, blk)) && Kept(fs, Put(fs, x, blk))
  {
    hide RefOf, ByteAt;
    PutLinked(fs, x, blk);
    forall i: nat, o: nat | i < |fs.nodes|
      ensures ByteAt(Put(fs, x, blk), i, o) == ByteAt(fs, i, o)
    {
      PutByte(fs, x, blk, i, o);
      if o / BSIZE < MAXFILE { assert RefOk(fs, i, SlotFor(o / BSIZE)); }
    }
  }

  lemma KeptTrans(a: Fs, b: Fs, c: Fs)
    requires Kept(a, b) && Kept(b, c)
    ensures Kept(a, c)
  {
    hide RefOf, ByteAt;
    forall i: nat, k: nat | i < |a.nodes| && k < SLOTS
      ensures RefOf(c, i, k) == RefOf(a, i, k)
    {
      assert RefOf(b, i, k) == RefOf(a, i, k);
    }
    forall i: nat, o: nat | i < |a.nodes|
      ensures ByteAt(c, i, o) == ByteAt(a, i, o)
    {
      assert ByteAt(b, i, o) == ByteAt(a, i, o);
    }
  }

  // ----- the free map -----

  /** A block outside the free map may be written. */
  lemma PutUsed(fs: Fs, x: nat, blk: Block, b: nat)
    requires GoodSuper(fs.sb) && |fs.disk| == fs.sb.size && x < |fs.disk| && b < fs.sb.size
    requires x < fs.sb.bmapstart || fs.sb.nmeta <= x
    ensures Used(Put(fs, x, blk), b) == Used(fs, b)
  {
    assert b / BPB <= fs.sb.size / BPB;
  }

  lemma PutMarked(fs: Fs, x: nat, blk: Block, pend: set<nat>)
    requires GoodSuper(fs.sb) && |fs.disk| == fs.sb.size && x < |fs.disk| && Marked(fs, pend)
    requires x < fs.sb.bmapstart || fs.sb.nmeta <= x
    ensures Marked(Put(fs, x, blk), pend)
  {
    hide Used;
    forall b: nat | b < fs.sb.size
      ensures Used(Put(fs, x, blk), b) <==> b < fs.sb.nmeta || b in fs.owner || b in pend
    {
      PutUsed(fs, x, blk, b);
    }
  }

  function MarkBit(fs: Fs, b: nat): Fs
    requires BBlock(fs.sb, b) < |fs.disk|
  {
    Put(fs, BBlock(fs.sb, b), SetBit(fs.disk[BBlock(fs.sb, b)], b % BPB))
  }

  function WipeBit(fs: Fs, b: nat): Fs
    requires BBlock(fs.sb, b) < |fs.disk|
  {
    Put(fs, BBlock(fs.sb, b), ClearBit(fs.disk[BBlock(fs.sb, b)], b % BPB))
  }

  lemma BitOf(fs: Fs, b: nat, c: nat)
    requires BBlock(fs.sb, b) < |fs.disk| && BBlock(fs.sb, c) < |fs.disk|
    ensures Used(MarkBit(fs, b), c) == (Used(fs, c) || c == b)
    ensures Used(WipeBit(fs, b), c) == (Used(fs, c) && c != b)
  {
    hide Bit, SetBit, ClearBit;
    BitsSeparate(fs.disk[BBlock(fs.sb, b)], b % BPB, c % BPB);
    assert b == b / BPB * BPB + b % BPB && c == c / BPB * BPB + c % BPB;
  }

  /** The free map is metadata. */
  lemma BBlockIsMeta(fs: Fs, b: nat)
    requires Linked(fs) && b < fs.sb.size
    ensures 0 < fs.sb.bmapstart <= BBlock(fs.sb, b) < fs.sb.nmeta && BBlock(fs.sb, b) !in fs.owner
  {
    assert b / BPB <= fs.sb.size / BPB;
    assert BBlock(fs.sb, b) in fs.owner ==> OwnerOk(fs, BBlock(fs.sb, b));
  }

  lemma Marks(fs: Fs, b: nat, pend: set<nat>)
    requires Good(fs, pend) && b < fs.sb.size && !Used(fs, b)
    ensures Good(MarkBit(fs, b), pend + {b}) && Kept(fs, MarkBit(fs, b)) && b !in pend && b !in fs.owner
            && fs.sb.nmeta <= b
  {
    hide Used, RefOf, ByteAt;
    BBlockIsMeta(fs, b);
    PutKept(fs, BBlock(fs.sb, b), SetBit(fs.disk[BBlock(fs.sb, b)], b % BPB));
    forall c: nat | c < fs.sb.size
      ensures Used(MarkBit(fs, b), c) <==> c < fs.sb.nmeta || c in fs.owner || c in pend + {b}
    {
      BBlockIsMeta(fs, c);
      BitOf(fs, b, c);
    }
  }

  lemma Wipes(fs: Fs, b: nat, pend: set<nat>)
    requires Good(fs, pend) && b in pend
    ensures Good(WipeBit(fs, b), pend - {b}) && Kept(fs, WipeBit(fs, b))
  {
    hide Used, RefOf, ByteAt;
    BBlockIsMeta(fs, b);
    PutKept(fs, BBlock(fs.sb, b), ClearBit(fs.disk[BBlock(fs.sb, b)], b % BPB));
    forall c: nat | c < fs.sb.size
      ensures Used(WipeBit(fs, b), c) <==> c < fs.sb.nmeta || c in fs.owner || c in pend - {b}
    {
      BBlockIsMeta(fs, c);
      BitOf(fs, b, c);
    }
  }

  // ----- linking and unlinking blocks -----

  function SetAddr(n: Node, k: nat, b: UWord): Node
    requires k <= 12
  {
    n.(addrs := n.addrs[k := b])
  }

  /** Block `b` goes into slot `k` of the inode. */
  function LinkAddr(fs: Fs, i: nat, k: nat, b: UWord): Fs
    requires i < |fs.nodes| && k <= 12
  {
    fs.(nodes := fs.nodes[i := SetAddr(fs.nodes[i], k, b)], owner := fs.owner[b := (i, k)])
  }

  /** Block `b` goes into entry `j` of the indirect block. */
  function LinkEntry(fs: Fs, i: nat, j: nat, b: UWord): Fs
    requires i < |fs.nodes| && j < NINDIRECT && fs.nodes[i].addrs[12] < |fs.disk|
  {
    var t := fs.nodes[i].addrs[12];
    Put(fs, t, PutWord(fs.disk[t], j, b)).(owner := fs.owner[b := (i, 13 + j)])
  }

  predicate NoEntries(b: Block) { forall j: nat :: j < NINDIRECT ==> Word(b, j) == 0 }

  lemma LinkAddrRef(fs: Fs, i: nat, k: nat, b: UWord, i': nat, k': nat)
    requires i < |fs.nodes| && k <= 12 && i' < |fs.nodes| && k' < SLOTS && b < |fs.disk|
    requires k == 12 ==> fs.nodes[i].addrs[12] == 0 && NoEntries(fs.disk[b])
    ensures RefOf(LinkAddr(fs, i, k, b), i', k') == if i' == i && k' == k then b else RefOf(fs, i', k')
  {
  }

  lemma LinkEntryRef(fs: Fs, i: nat, j: nat, b: UWord, i': nat, k': nat)
    requires Linked(fs) && i < |fs.nodes| && j < NINDIRECT && fs.nodes[i].addrs[12] != 0
    requires i' < |fs.nodes| && k' < SLOTS
    ensures RefOk(fs, i, 12) && fs.nodes[i].addrs[12] < |fs.disk|
    ensures RefOf(LinkEntry(fs, i, j, b), i', k') == if i' == i && k' == 13 + j then b else RefOf(fs, i', k')
  {
    assert RefOk(fs, i, 12) && RefOk(fs, i', 12);
    var t := fs.nodes[i].addrs[12];
    assert OwnerOk(fs, t);
    hide Word, PutWord;
    if i' == i && k' > 12 {
      PutWordReads(fs.disk[t], j, b, k' - 13);
    }
  }

  /** A slot that was empty now refers to a block no slot referred to. */
  lemma LinkLinked(fs: Fs, fs': Fs, i: nat, k: nat, b: nat)
    requires Linked(fs) && fs.sb.nmeta <= b < fs.sb.size && b !in fs.owner && i < |fs.nodes| && k < SLOTS
             && RefOf(fs, i, k) == 0
    requires fs'.sb == fs.sb && |fs'.disk| == |fs.disk| && |fs'.nodes| == |fs.nodes|
             && fs'.owner == fs.owner[b := (i, k)]
    requires forall i': nat, k': nat {:trigger RefOf(fs', i', k')} :: i' < |fs.nodes| && k' < SLOTS ==>
               RefOf(fs', i', k') == if i' == i && k' == k then b else RefOf(fs, i', k')
    ensures Linked(fs')
  {
    hide Used, RefOf;
    forall i': nat, k': nat | i' < |fs.nodes| && k' < SLOTS
      ensures RefOk(fs', i', k')
    {
      assert RefOk(fs, i', k');
      assert RefOf(fs', i', k') == if i' == i && k' == k then b else RefOf(fs, i', k');
    }
    forall c | c in fs'.owner
      ensures OwnerOk(fs', c)
    {
      if c != b {
        assert OwnerOk(fs, c);
        assert RefOf(fs', fs.owner[c].0, fs.owner[c].1) == c;
      } else {
        assert RefOf(fs', i, k) == b;
      }
    }
  }

  /** If the block was pending, it is so no longer. */
  lemma LinkGood(fs: Fs, fs': Fs, pend: set<nat>, i: nat, k: nat, b: nat)
    requires Good(fs, pend) && b in pend && i < |fs.nodes| && k < SLOTS && RefOf(fs, i, k) == 0
    requires fs'.sb == fs.sb && |fs'.disk| == |fs.disk| && |fs'.nodes| == |fs.nodes|
             && fs'.owner == fs.owner[b := (i, k)]
    requires forall i': nat, k': nat {:trigger RefOf(fs', i', k')} :: i' < |fs.nodes| && k' < SLOTS ==>
               RefOf(fs', i', k') == if i' == i && k' == k then b else RefOf(fs, i', k')
    requires forall c: nat {:trigger Used(fs', c)} :: c < fs.sb.size ==>
             BBlock(fs.sb, c) < |fs.disk| && Used(fs', c) == Used(fs, c)
    ensures Good(fs', pend - {b})
  {
    hide Used, RefOf;
    LinkLinked(fs, fs', i, k, b);
  }
}
