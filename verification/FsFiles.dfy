/** What the operations on files do to the value of the file system. */
module FsFiles {
  import opened FsDisk
  import opened FsModel

  /** The bytes of no file have changed, except that the bytes of file `i` from `off` on are
      now `data`.  Blocks may have been added to file `i`; no reference has gone. */
  ghost predicate Wrote(fs: Fs, fs': Fs, i: nat, off: nat, data: seq<Byte>) {
    && fs'.sb == fs.sb && |fs'.nodes| == |fs.nodes| && |fs'.disk| == |fs.disk|
    && i < |fs.nodes| && fs'.nodes[i].size == fs.nodes[i].size && fs'.nodes[i].head == fs.nodes[i].head
    && (forall j: nat {:trigger fs'.nodes[j]} :: j < |fs.nodes| && j != i ==> fs'.nodes[j] == fs.nodes[j])
    && (forall j: nat, k: nat {:trigger RefOf(fs', j, k)} ::
       j < |fs.nodes| && k < SLOTS && (j != i || RefOf(fs, j, k) != 0) ==>
          RefOf(fs', j, k) == RefOf(fs, j, k))
    && (forall j: nat, o: nat {:trigger ByteAt(fs', j, o)} :: j < |fs.nodes| ==>
          ByteAt(fs', j, o) == if j == i && off <= o < off + |data| then data[o - off] else ByteAt(fs, j, o))
  }

  /** Inode blocks are as they were. */
  ghost predicate SameInodes(fs: Fs, fs': Fs) {
    && fs'.sb == fs.sb && |fs'.disk| == |fs.disk|
    && forall x {:trigger fs'.disk[x]} :: fs.sb.inodestart <= x < fs.sb.bmapstart && x < |fs.disk| ==>
       fs'.disk[x] == fs.disk[x]
  }

  lemma WroteMore(a: Fs, b: Fs, c: Fs, i: nat, off: nat, d: seq<Byte>, e: seq<Byte>)
    requires Wrote(a, b, i, off, d) && Wrote(b, c, i, off + |d|, e)
    ensures Wrote(a, c, i, off, d + e)
  {
    hide RefOf, ByteAt;
    forall j: nat, k: nat | j < |a.nodes| && k < SLOTS && (j != i || RefOf(a, j, k) != 0)
      ensures RefOf(c, j, k) == RefOf(a, j, k)
    {
      assert RefOf(b, j, k) == RefOf(a, j, k);
    }
    forall j: nat, o: nat | j < |a.nodes|
      ensures ByteAt(c, j, o) == if j == i && off <= o < off + |d + e| then (d + e)[o - off] else ByteAt(a, j, o)
    {
      assert ByteAt(b, j, o) == ByteAt(b, j, o);
    }
  }

  lemma KeptWrote(a: Fs, b: Fs, i: nat, off: nat)
    requires Kept(a, b) && i < |a.nodes|
    ensures Wrote(a, b, i, off, [])
  {
  }

  lemma LinkAddrWrote(fs: Fs, i: nat, k: nat, b: UWord, off: nat)
    requires Linked(fs) && i < |fs.nodes| && k <= 12 && RefOf(fs, i, k) == 0 && b < |fs.disk|
             && fs.disk[b] == ZeroBlock()
    ensures Wrote(fs, LinkAddr(fs, i, k, b), i, off, [])
    ensures forall i': nat, k': nat {:trigger RefOf(LinkAddr(fs, i, k, b), i', k')} :: i' < |fs.nodes| && k' < SLOTS ==>
              RefOf(LinkAddr(fs, i, k, b), i', k') == if i' == i && k' == k then b else RefOf(fs, i', k')
  {
    hide RefOf;
    var fs' := LinkAddr(fs, i, k, b);
    assert NoEntries(ZeroBlock()) by {
      forall j: nat | j < NINDIRECT
        ensures Word(ZeroBlock(), j) == 0
      {
        ZeroWords(j);
      }
    }
    assert k == 12 ==> fs.nodes[i].addrs[12] == 0 by { RefTable(fs, i); }
    forall i': nat, k': nat | i' < |fs.nodes| && k' < SLOTS
      ensures RefOf(fs', i', k') == if i' == i && k' == k then b else RefOf(fs, i', k')
    {
      LinkAddrRef(fs, i, k, b, i', k');
    }
    forall j: nat, o: nat | j < |fs.nodes|
      ensures ByteAt(fs', j, o) == ByteAt(fs, j, o)
    {
      if o / BSIZE < MAXFILE { LinkAddrRef(fs, i, k, b, j, SlotFor(o / BSIZE)); }
    }
  }

  lemma RefTable(fs: Fs, i: nat)
    requires i < |fs.nodes|
    ensures RefOf(fs, i, 12) == fs.nodes[i].addrs[12]
  {
  }

  lemma LinkEntryWrote(fs: Fs, i: nat, j: nat, b: UWord, off: nat)
    requires Linked(fs) && i < |fs.nodes| && j < NINDIRECT && fs.nodes[i].addrs[12] != 0 && RefOf(fs, i, 13 + j) == 0
    requires b < |fs.disk| && b !in fs.owner && fs.disk[b] == ZeroBlock()
    ensures fs.nodes[i].addrs[12] in fs.owner && fs.sb.nmeta <= fs.nodes[i].addrs[12] < |fs.disk|
    ensures Wrote(fs, LinkEntry(fs, i, j, b), i, off, []) && SameInodes(fs, LinkEntry(fs, i, j, b))
    ensures forall i': nat, k': nat {:trigger RefOf(LinkEntry(fs, i, j, b), i', k')} ::
            i' < |fs.nodes| && k' < SLOTS ==>
              RefOf(LinkEntry(fs, i, j, b), i', k') == if i' == i && k' == 13 + j then b else RefOf(fs, i', k')
  {
    hide RefOf, Word, PutWord;
    RefTable(fs, i);
    assert RefOk(fs, i, 12);
    var t := fs.nodes[i].addrs[12];
    assert OwnerOk(fs, t);
    var fs' := LinkEntry(fs, i, j, b);
    forall i': nat, k': nat | i' < |fs.nodes| && k' < SLOTS
      ensures RefOf(fs', i', k') == if i' == i && k' == 13 + j then b else RefOf(fs, i', k')
    {
      LinkEntryRef(fs, i, j, b, i', k');
    }
    forall i': nat, o: nat | i' < |fs.nodes|
      ensures ByteAt(fs', i', o) == ByteAt(fs, i', o)
    {
      if o / BSIZE < MAXFILE {
        LinkEntryRef(fs, i, j, b, i', SlotFor(o / BSIZE));
        assert RefOk(fs, i', SlotFor(o / BSIZE));   // so its data block is not the table
      }
    }
  }

  // ----- file data -----

  /** `data` copied into a block from `at` on. */
  function Overlay(blk: Block, at: nat, data: seq<Byte>): Block
    requires at + |data| <= BSIZE
  {
    blk[..at] + data + blk[at + |data|..]
  }

  /** Bytes [off, off + m) of one block. */
  lemma WithinBlock(off: nat, m: nat, o: nat)
    requires 0 < m && m <= BSIZE - off % BSIZE
    ensures off <= o < off + m <==> o / BSIZE == off / BSIZE && off % BSIZE <= o % BSIZE < off % BSIZE + m
    ensures off <= o < off + m ==> o - off == o % BSIZE - off % BSIZE
  {
  }

  /** Storing into a data block changes those bytes of that file and nothing else. */
  lemma StoreWrote(fs: Fs, i: nat, off: nat, data: seq<Byte>)
    requires Linked(fs) && i < |fs.nodes| && off / BSIZE < MAXFILE && DataBlock(fs, i, off / BSIZE) != 0
    requires 0 < |data| <= BSIZE - off % BSIZE
    ensures var x := DataBlock(fs, i, off / BSIZE);
            && x in fs.owner && fs.sb.inodestart < fs.sb.nmeta <= x < |fs.disk|
            && var fs' := Put(fs, x, Overlay(fs.disk[x], off % BSIZE, data));
               Linked(fs') && Wrote(fs, fs', i, off, data) && SameInodes(fs, fs')
               && (forall k: nat {:trigger RefOf(fs', i, k)} :: k < SLOTS ==> RefOf(fs', i, k) == RefOf(fs, i, k))
  {
    hide RefOf, Overlay, Used;
    var bn := off / BSIZE;
    var x := DataBlock(fs, i, bn);
    assert RefOk(fs, i, SlotFor(bn));
    assert OwnerOk(fs, x);
    var blk := Overlay(fs.disk[x], off % BSIZE, data);
    var fs' := Put(fs, x, blk);
    PutLinked(fs, x, blk);
    forall j: nat, o: nat | j < |fs.nodes|
      ensures ByteAt(fs', j, o) == if j == i && off <= o < off + |data| then data[o - off] else ByteAt(fs, j, o)
    {
      PutByte(fs, x, blk, j, o);
      WithinBlock(off, |data|, o);
      OverlayAt(fs.disk[x], off % BSIZE, data, o % BSIZE);
      if o / BSIZE < MAXFILE {
        assert RefOk(fs, j, SlotFor(o / BSIZE));
        if DataBlock(fs, j, o / BSIZE) == x { OneByte(fs, j, o); }
      }
    }
  }

  lemma StoreGood(fs: Fs, x: nat, blk: Block, pend: set<nat>)
    requires Good(fs, pend) && fs.sb.nmeta <= x < |fs.disk| && Linked(Put(fs, x, blk))
    ensures Good(Put(fs, x, blk), pend)
  {
    hide RefOf, Used;
    PutMarked(fs, x, blk, pend);
  }

  lemma OneByte(fs: Fs, j: nat, o: nat)
    requires j < |fs.nodes| && o / BSIZE < MAXFILE && 0 < DataBlock(fs, j, o / BSIZE) < |fs.disk|
    ensures ByteAt(fs, j, o) == fs.disk[DataBlock(fs, j, o / BSIZE)][o % BSIZE]
  {
  }

  lemma OverlayAt(blk: Block, at: nat, data: seq<Byte>, p: nat)
    requires at + |data| <= BSIZE && p < BSIZE
    ensures Overlay(blk, at, data)[p] == if at <= p < at + |data| then data[p - at] else blk[p]
  {
  }

  function Splice(s: seq<Byte>, off: nat, data: seq<Byte>): seq<Byte>
    requires off <= |s|
  {
    s[..off] + data + (if off + |data| < |s| then s[off + |data|..] else [])
  }

  function SetSize(fs: Fs, i: nat, size: UWord): Fs
    requires i < |fs.nodes|
  {
    fs.(nodes := fs.nodes[i := fs.nodes[i].(size := size)])
  }

  lemma SetSizeLinked(fs: Fs, i: nat, size: UWord)
    requires Linked(fs) && i < |fs.nodes|
    ensures Linked(SetSize(fs, i, size))
    ensures forall j: nat, k: nat {:trigger RefOf(SetSize(fs, i, size), j, k)} :: j < |fs.nodes| && k < SLOTS ==>
              RefOf(SetSize(fs, i, size), j, k) == RefOf(fs, j, k)
    ensures forall j: nat, o: nat {:trigger ByteAt(SetSize(fs, i, size), j, o)} :: j < |fs.nodes| ==>
              ByteAt(SetSize(fs, i, size), j, o) == ByteAt(fs, j, o)
  {
    var fs' := SetSize(fs, i, size);
    assert forall j: nat, k: nat {:trigger RefOf(fs', j, k)} :: j < |fs.nodes| && k < SLOTS ==>
           RefOf(fs', j, k) == RefOf(fs, j, k);
    hide RefOf;
    forall j: nat, k: nat | j < |fs.nodes| && k < SLOTS
      ensures RefOk(fs', j, k)
    {
      assert RefOk(fs, j, k);
    }
    forall b | b in fs'.owner
      ensures OwnerOk(fs', b)
    {
      assert OwnerOk(fs, b);
    }
  }

  lemma SetSizeGood(fs: Fs, i: nat, size: UWord, pend: set<nat>)
    requires Good(fs, pend) && i < |fs.nodes|
    ensures Good(SetSize(fs, i, size), pend)
  {
    hide Used, RefOf;
    SetSizeLinked(fs, i, size);
    var fs' := SetSize(fs, i, size);
    forall b: nat | b < fs.sb.size
      ensures Used(fs', b) <==> b < fs.sb.nmeta || b in fs.owner || b in pend
    {
      SameUsed(fs, fs', b);
    }
  }

  lemma SameUsed(fs: Fs, fs': Fs, b: nat)
    requires fs'.sb == fs.sb && fs'.disk == fs.disk && BBlock(fs.sb, b) < |fs.disk|
    ensures Used(fs', b) == Used(fs, b)
  {
  }

  /** What writei has done to the file it wrote, and to all others. */
  lemma FileWritten(fs: Fs, fs1: Fs, i: nat, off: nat, data: seq<Byte>, size: UWord, j: nat)
    requires Linked(fs1) && Wrote(fs, fs1, i, off, data) && j < |fs.nodes| && off <= fs.nodes[i].size <= size
    requires size <= if off + |data| > fs.nodes[i].size then off + |data| else fs.nodes[i].size
    ensures size <= |Splice(File(fs, i), off, data)|
    ensures File(SetSize(fs1, i, size), j) == if j == i then Splice(File(fs, i), off, data)[..size] else File(fs, j)
  {
    hide ByteAt, Linked;
    SetSizeLinked(fs1, i, size);
  }

  // ----- inodes on disk -----

  function PutWords(b: Block, j: nat, ws: seq<UWord>): Block
    requires j + |ws| <= 256
    decreases |ws|
  {
    if ws == [] then b else PutWord(PutWords(b, j, ws[..|ws| - 1]), j + |ws| - 1, ws[|ws| - 1])
  }

  lemma {:induction false} PutWordsRead(b: Block, j: nat, ws: seq<UWord>, k: nat)
    requires j + |ws| <= 256 && k < 256
    ensures Word(PutWords(b, j, ws), k) == if j <= k < j + |ws| then ws[k - j] else Word(b, k)
    decreases |ws|
  {
    hide Word, PutWord;
    if ws != [] {
      var front := ws[..|ws| - 1];
      PutWordsRead(b, j, front, k);
      PutWordReads(PutWords(b, j, front), j + |ws| - 1, ws[|ws| - 1], k);
    }
  }

  function InodeWords(n: Node): seq<UWord> { [n.head.0, n.head.1, n.size] + n.addrs }

  function Encode(b: Block, slot: nat, n: Node): Block
    requires slot < IPB
  {
    PutWords(b, 16 * slot, InodeWords(n))
  }

  /** iupdate writes what ilock reads, and the other inodes of the block stay. */
  lemma DecodeEncode(b: Block, slot: nat, n: Node, slot': nat)
    requires slot < IPB && slot' < IPB
    ensures Decode(Encode(b, slot, n), slot') == if slot' == slot then n else Decode(b, slot')
  {
    hide Word, PutWord, PutWords, WordsFrom;
    forall k: nat | k < 256
      ensures Word(Encode(b, slot, n), k) ==
              if 16 * slot <= k < 16 * slot + 16 then InodeWords(n)[k - 16 * slot] else Word(b, k)
    {
      PutWordsRead(b, 16 * slot, InodeWords(n), k);
    }
    var got, want := Decode(Encode(b, slot, n), slot'), if slot' == slot then n else Decode(b, slot');
    forall k: nat | k < 13
      ensures got.addrs[k] == want.addrs[k]
    {
      assert got.addrs[k] == Word(Encode(b, slot, n), 16 * slot' + 3 + k);
    }
    assert got.addrs == want.addrs;
  }

  function WriteInode(fs: Fs, i: nat): Fs
    requires i < |fs.nodes| && IBlock(fs.sb, i) < |fs.disk|
  {
    Put(fs, IBlock(fs.sb, i), Encode(fs.disk[IBlock(fs.sb, i)], i % IPB, fs.nodes[i]))
  }

  /** Inode `i` on disk is what the kernel has in memory. */
  predicate Synced(fs: Fs, i: nat)
    requires i < |fs.nodes|
  {
    IBlock(fs.sb, i) < |fs.disk| && InodeAt(fs, i) == fs.nodes[i]
  }

  lemma IBlockIsMeta(fs: Fs, i: nat)
    requires Linked(fs) && i < |fs.nodes|
    ensures 0 < fs.sb.inodestart <= IBlock(fs.sb, i) < fs.sb.bmapstart && IBlock(fs.sb, i) < |fs.disk|
            && IBlock(fs.sb, i) !in fs.owner
  {
    assert i / IPB <= fs.sb.ninodes / IPB;
    assert IBlock(fs.sb, i) in fs.owner ==> OwnerOk(fs, IBlock(fs.sb, i));
  }

  lemma WriteInodeSyncs(fs: Fs, i: nat)
    requires Linked(fs) && i < |fs.nodes|
    ensures IBlock(fs.sb, i) < |fs.disk|
    ensures Linked(WriteInode(fs, i)) && Kept(fs, WriteInode(fs, i))
    ensures forall j: nat {:trigger Synced(WriteInode(fs, i), j)} :: j < |fs.nodes| ==>
            (Synced(WriteInode(fs, i), j) <==> j == i || Synced(fs, j))
  {
    hide Encode, Decode, RefOf, ByteAt, Used;
    IBlockIsMeta(fs, i);
    var blk := Encode(fs.disk[IBlock(fs.sb, i)], i % IPB, fs.nodes[i]);
    PutKept(fs, IBlock(fs.sb, i), blk);
    forall j: nat | j < |fs.nodes|
      ensures Synced(WriteInode(fs, i), j) <==> j == i || Synced(fs, j)
    {
      IBlockIsMeta(fs, j);
      DecodeEncode(fs.disk[IBlock(fs.sb, i)], i % IPB, fs.nodes[i], j % IPB);
    }
  }

  lemma WriteInodeGood(fs: Fs, i: nat, pend: set<nat>)
    requires Good(fs, pend) && i < |fs.nodes| && IBlock(fs.sb, i) < |fs.disk|
    ensures Good(WriteInode(fs, i), pend)
  {
    hide Encode, Decode, RefOf, ByteAt, Used;
    IBlockIsMeta(fs, i);
    WriteInodeSyncs(fs, i);
    PutMarked(fs, IBlock(fs.sb, i), Encode(fs.disk[IBlock(fs.sb, i)], i % IPB, fs.nodes[i]), pend);
  }

  lemma SameInodesSynced(fs: Fs, fs': Fs, j: nat)
    requires Linked(fs) && SameInodes(fs, fs') && |fs'.nodes| == |fs.nodes| && j < |fs.nodes|
             && fs'.nodes[j] == fs.nodes[j]
    ensures Synced(fs', j) == Synced(fs, j)
  {
    IBlockIsMeta(fs, j);
    assert fs'.disk[IBlock(fs.sb, j)] == fs.disk[IBlock(fs.sb, j)];
  }

  // ----- truncation -----

  /** The order in which itrunc visits the slots: direct, table entries, the table. */
  function Rank(k: nat): nat { if k < 12 then k else if k == 12 then SLOTS - 1 else k - 1 }

  /** The blocks of inode `i` in the slots from `rank` on. */
  function Rest(fs: Fs, i: nat, rank: nat): set<nat> {
    set b | b in fs.owner && fs.owner[b].0 == i && Rank(fs.owner[b].1) >= rank
  }

  lemma RestStep(fs: Fs, i: nat, k: nat)
    requires Linked(fs) && i < |fs.nodes| && k < SLOTS
    ensures var b := RefOf(fs, i, k);
            && (b != 0 ==> b in fs.owner && b in Rest(fs, i, Rank(k)))
            && Rest(fs, i, Rank(k) + 1) == Rest(fs, i, Rank(k)) - {b}
  {
    hide RefOf;
    assert RefOk(fs, i, k);
    forall b | b in fs.owner
      ensures OwnerOk(fs, b)
    {
    }
  }

  lemma RestNone(fs: Fs, i: nat)
    requires Linked(fs)
    ensures Rest(fs, i, SLOTS) == {}
  {
    assert forall b :: b in fs.owner ==> OwnerOk(fs, b);
  }

  function NoAddrs(): seq<UWord> { seq(13, _ => 0) }

  /** Inode `i` without blocks and bytes. */
  function Emptied(fs: Fs, i: nat): Fs
    requires i < |fs.nodes|
  {
    fs.(nodes := fs.nodes[i := Inode(fs.nodes[i].head, 0, NoAddrs())],
        owner := map b | b in fs.owner && fs.owner[b].0 != i :: fs.owner[b])
  }

  lemma EmptiedRef(fs: Fs, i: nat, j: nat, k: nat)
    requires i < |fs.nodes| && j < |fs.nodes| && k < SLOTS
    ensures RefOf(Emptied(fs, i), j, k) == if j == i then 0 else RefOf(fs, j, k)
  {
  }

  /** Its blocks are then marked in the free map but not referred to any more. */
  lemma EmptiedGood(fs: Fs, i: nat)
    requires Good(fs, {}) && i < |fs.nodes|
    ensures Good(Emptied(fs, i), Rest(fs, i, 0))
    ensures forall j: nat, k: nat {:trigger RefOf(Emptied(fs, i), j, k)} :: j < |fs.nodes| && k < SLOTS ==>
              RefOf(Emptied(fs, i), j, k) == if j == i then 0 else RefOf(fs, j, k)
    ensures forall j: nat, o: nat {:trigger ByteAt(Emptied(fs, i), j, o)} :: j < |fs.nodes| && j != i ==>
              ByteAt(Emptied(fs, i), j, o) == ByteAt(fs, j, o)
  {
    hide RefOf, Used;
    var fs' := Emptied(fs, i);
    forall j: nat, k: nat | j < |fs.nodes| && k < SLOTS
      ensures RefOf(fs', j, k) == if j == i then 0 else RefOf(fs, j, k)
      ensures RefOk(fs', j, k)
    {
      EmptiedRef(fs, i, j, k);
      assert RefOk(fs, j, k);
    }
    forall b | b in fs'.owner
      ensures OwnerOk(fs', b)
    {
      assert OwnerOk(fs, b);
    }
    forall b | b in fs.owner
      ensures fs.sb.nmeta <= b < fs.sb.size
    {
      assert OwnerOk(fs, b);
    }
    forall b: nat | b < fs.sb.size
      ensures Used(fs', b) <==> b < fs.sb.nmeta || b in fs'.owner || b in Rest(fs, i, 0)
    {
      SameUsed(fs, fs', b);
    }
  }
}
