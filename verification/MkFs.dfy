/** mkfs.c: the image the kernel starts from. */
module MkFs {
  import opened Common
  import opened FsDisk
  import opened FsModel
  import opened FsFiles
  import opened FileSystem

  /** Past its last byte a file reads as zero. */
  ghost predicate ZeroTail(fs: Fs, i: nat)
    requires i < |fs.nodes|
  {
    forall o: nat {:trigger ByteAt(fs, i, o)} :: fs.nodes[i].size <= o ==> ByteAt(fs, i, o) == 0
  }

  /** No block is there for bytes from `limit` on. */
  ghost predicate Trimmed(fs: Fs, i: nat, limit: nat)
    requires i < |fs.nodes|
  {
    forall bn: nat {:trigger DataBlock(fs, i, bn)} :: bn < MAXFILE && bn * BSIZE >= limit ==> DataBlock(fs, i, bn) == 0
  }

  ghost predicate Settled(fs: Fs, i: nat)
    requires i < |fs.nodes|
  {
    NoHoles(fs, i) && Synced(fs, i) && ZeroTail(fs, i) && Trimmed(fs, i, fs.nodes[i].size)
  }

  /** Data blocks have been handed out in order up to `freeblock`; the rest, and the free map,
      is still zero. */
  ghost predicate Packed(fs: Fs, freeblock: nat) {
    && Linked(fs) && fs.sb.nmeta <= freeblock <= fs.sb.size
    && (forall b: nat {:trigger b in fs.owner} :: b in fs.owner <==> fs.sb.nmeta <= b < freeblock)
    && (forall b: nat {:trigger fs.disk[b]} :: freeblock <= b < fs.sb.size || fs.sb.bmapstart <= b < fs.sb.nmeta ==>
          fs.disk[b] == ZeroBlock())
  }

  ghost predicate Image(fs: Fs, freeblock: nat) {
    Packed(fs, freeblock) && forall i: nat {:trigger Settled(fs, i)} :: i < |fs.nodes| ==> Settled(fs, i)
  }

  /** The state of iappend after `done` bytes. */
  ghost predicate Appending(fs: Fs, fs': Fs, f0: nat, f: nat, i: nat, data: seq<Byte>, done: nat) {
    && i < |fs.nodes| && done <= |data| && Packed(fs', f)
    && Wrote(fs, fs', i, fs.nodes[i].size, data[..done]) && SameInodes(fs, fs')
    && MappedTo(fs', i, fs.nodes[i].size) && MappedTo(fs', i, fs.nodes[i].size + done)
    && Trimmed(fs', i, fs.nodes[i].size + done)
    && f <= f0 + 2 * Touched(fs.nodes[i].size, done)
    && (0 < done < |data| ==> (fs.nodes[i].size + done) % BSIZE == 0)
  }

  class MkFs {
    const sb: Super
    var disk: seq<Block>
    var freeinode: nat
    var freeblock: nat
    ghost var nodes: seq<Node>
    ghost var owner: map<nat, (nat, nat)>

    ghost function View(): Fs
      reads this
    {
      Fs(sb, disk, nodes, owner)
    }

    /** main: every block of the image is zeroed; the superblock is not modelled. */
    constructor (sb: Super)
      requires GoodSuper(sb) && sb.ninodes < UINT
      ensures this.sb == sb && freeinode == 1 && freeblock == sb.nmeta && Image(View(), freeblock)
      ensures nodes == seq(sb.ninodes, _ => NoNode())
      ensures forall i: nat {:trigger File(View(), i)} :: i < |nodes| ==> File(View(), i) == []
    {
      this.sb := sb;
      disk := seq(sb.size, _ => ZeroBlock());
      freeinode := 1;
      freeblock := sb.nmeta;
      nodes := seq(sb.ninodes, _ => NoNode());
      owner := map[];
      new;
      EmptyImage(View());
    }

    /** The part of iappend that adds a direct block or the indirect block: the next unused one.
        If the image has none left, the block read next does not exist and mkfs dies. */
    method NewAddr(inum: nat, din: Node, k: nat) returns (ok: bool, din': Node)
      requires Packed(View(), freeblock) && inum < |nodes| && nodes[inum] == din && k <= 12 && din.addrs[k] == 0
      modifies this`freeblock, this`nodes, this`owner
      ensures ok <==> old(freeblock) < sb.size
      ensures !ok ==> View() == old(View()) && freeblock == old(freeblock) && din' == din
      ensures ok ==>
                && Packed(View(), freeblock) && freeblock == old(freeblock) + 1
                && nodes == old(nodes)[inum := din'] && din'.size == din.size
                && Wrote(old(View()), View(), inum, 0, []) && SameInodes(old(View()), View())
                && din'.addrs == din.addrs[k := old(freeblock)] && old(freeblock) != 0
      ensures ok ==> forall k': nat {:trigger RefOf(View(), inum, k')} :: k' < SLOTS && k' != k ==>
                RefOf(View(), inum, k') == RefOf(old(View()), inum, k')
    {
      hide RefOf, ByteAt;
      if freeblock >= sb.size {
        return false, din;
      }
      ok := true;
      ghost var fs := View();
      AddrRef(fs, inum, k);
      LinkAddrWrote(fs, inum, k, freeblock, 0);
      LinkLinked(fs, LinkAddr(fs, inum, k, freeblock), inum, k, freeblock);
      din' := FsModel.SetAddr(din, k, freeblock);
      nodes := nodes[inum := din'];
      owner := owner[freeblock := (inum, k)];
      freeblock := freeblock + 1;
    }

    /** The same for an entry of the indirect block, which is written back. */
    method NewEntry(inum: nat, din: Node, j: nat) returns (ok: bool)
      requires Packed(View(), freeblock) && inum < |nodes| && nodes[inum] == din && j < NINDIRECT
      requires din.addrs[12] != 0 && RefOf(View(), inum, 13 + j) == 0
      modifies this`freeblock, this`disk, this`owner
      ensures ok <==> old(freeblock) < sb.size
      ensures !ok ==> View() == old(View()) && freeblock == old(freeblock)
      ensures ok ==>
                && Packed(View(), freeblock) && freeblock == old(freeblock) + 1
                && Wrote(old(View()), View(), inum, 0, []) && SameInodes(old(View()), View())
                && RefOf(View(), inum, 13 + j) == old(freeblock) != 0
      ensures ok ==> forall k': nat {:trigger RefOf(View(), inum, k')} :: k' < SLOTS && k' != 13 + j ==>
                RefOf(View(), inum, k') == RefOf(old(View()), inum, k')
    {
      hide RefOf, ByteAt, PutWord;
      if freeblock >= sb.size {
        return false;
      }
      ok := true;
      ghost var fs := View();
      LinkEntryWrote(fs, inum, j, freeblock, 0);
      LinkLinked(fs, LinkEntry(fs, inum, j, freeblock), inum, 13 + j, freeblock);
      var t := din.addrs[12];
      disk := disk[t := PutWord(disk[t], j, freeblock)];
      owner := owner[freeblock := (inum, 13 + j)];
      freeblock := freeblock + 1;
    }

    /** The block for file block `fbn`, added if it is not there. */
    method BlockFor(inum: nat, din: Node, fbn: nat) returns (ok: bool, din': Node, x: nat)
      requires Packed(View(), freeblock) && inum < |nodes| && nodes[inum] == din && fbn < MAXFILE
      modifies this`freeblock, this`disk, this`nodes, this`owner
      ensures !ok ==> freeblock == sb.size && old(freeblock) + 2 > sb.size
      ensures ok ==>
                && Packed(View(), freeblock) && freeblock <= old(freeblock) + 2
                && inum < |nodes| && nodes[inum] == din' && din'.size == din.size
                && Wrote(old(View()), View(), inum, 0, []) && SameInodes(old(View()), View())
                && x == DataBlock(View(), inum, fbn) != 0
      ensures ok ==> forall k: nat {:trigger RefOf(View(), inum, k)} :: k < SLOTS && k != SlotFor(fbn) && k != 12 ==>
                RefOf(View(), inum, k) == RefOf(old(View()), inum, k)
    {
      hide RefOf, ByteAt, Wrote, SameInodes, Linked, Word;
      ghost var fs := View();
      KeptSelf(fs, inum);
      ok, din', x := true, din, 0;
      if fbn < NDIRECT {
        AddrRef(fs, inum, fbn);
        if din'.addrs[fbn] == 0 {
          ok, din' := NewAddr(inum, din', fbn);
          if !ok {
            return;
          }
        }
        AddrRef(View(), inum, fbn);
        x := din'.addrs[fbn];
      } else {
        if din'.addrs[12] == 0 {
          ok, din' := NewAddr(inum, din', 12);
          if !ok {
            return;
          }
        }
        ghost var fs1 := View();
        TableEntry(fs1, freeblock, inum, fbn - NDIRECT);
        x := Word(disk[din'.addrs[12]], fbn - NDIRECT);
        if x == 0 {
          x := freeblock;
          ok := NewEntry(inum, din', fbn - NDIRECT);
          if !ok {
            return;
          }
          WroteNone(fs, fs1, View(), inum);
          SameInodesTrans(fs, fs1, View());
        }
      }
    }

    /** One iteration of iappend; false stands for the death of mkfs, for want of blocks or
        because the file has become too large. */
    method AppendOne(inum: nat, din: Node, data: seq<Byte>, done: nat, ghost fs: Fs, ghost f0: nat)
      returns (ok: bool, din': Node, n1: nat)
      requires fs.sb == sb && Appending(fs, View(), f0, freeblock, inum, data, done) && done < |data|
      requires inum < |nodes| && nodes[inum] == din && fs.nodes[inum].size == din.size
      modifies this`freeblock, this`disk, this`nodes, this`owner
      ensures !ok ==>
                || din.size + |data| > MAXFILE * BSIZE
                || (freeblock == sb.size && f0 + 2 * Touched(din.size, |data|) > sb.size)
      ensures ok ==> 0 < n1 <= |data| - done && Appending(fs, View(), f0, freeblock, inum, data, done + n1)
      ensures ok ==>
                && inum < |nodes| && nodes[inum] == din' && din'.size == din.size
                && din.size + done + n1 <= MAXFILE * BSIZE
    {
      hide RefOf, ByteAt, Wrote, SameInodes, Packed, MappedTo, Trimmed, Touched, Overlay;
      var off := din.size + done;
      var fbn := off / BSIZE;
      ok, din', n1 := false, din, 0;
      if fbn >= MAXFILE {
        return;
      }
      ghost var fs1 := View();
      n1 := if |data| - done < (fbn + 1) * BSIZE - off then |data| - done else (fbn + 1) * BSIZE - off;
      TouchedMore(din.size, done, n1);
      TouchedGrows(din.size, done + n1, |data|);
      var x;
      ok, din', x := BlockFor(inum, din, fbn);
      if !ok {
        return;
      }
      ghost var fs2 := View();
      WrittenMore(fs, fs1, fs2, inum, din.size, data[..done], []);
      assert data[..done] + [] == data[..done];
      StillMapped(fs1, fs2, inum, din.size, off);
      NowTrimmed(fs1, fs2, inum, off, n1);
      StorePacked(fs2, freeblock, inum, off, data[done..done + n1]);
      disk := disk[x := Overlay(disk[x], off - fbn * BSIZE, data[done..done + n1])];
      WrittenMore(fs, fs2, View(), inum, din.size, data[..done], data[done..done + n1]);
      assert data[..done + n1] == data[..done] + data[done..done + n1];
      NowMapped(fs2, View(), inum, din.size, off, n1);
      SameTrimmed(fs2, View(), inum, off + n1);
    }

    /** iappend: the file has grown by `data`, or mkfs has died, which it does only when the
        image is full or the file would become larger than a file can be. */
    method Iappend(inum: nat, data: seq<Byte>) returns (ok: bool)
      requires Image(View(), freeblock) && inum < |nodes|
      modifies this`freeblock, this`disk, this`nodes, this`owner
      ensures ok ==> Image(View(), freeblock) && OthersSame(old(View()), View(), inum)
      ensures ok ==> File(View(), inum) == old(File(View(), inum)) + data
      ensures ok ==> inum < |nodes| && nodes[inum].head == old(nodes[inum].head)
      ensures ok ==> freeblock <= old(freeblock) + 2 * Touched(old(nodes[inum]).size, |data|)
      ensures old(nodes[inum]).size + |data| > MAXFILE * BSIZE ==> !ok
      ensures !ok ==>
                || old(nodes[inum]).size + |data| > MAXFILE * BSIZE
                || (freeblock == sb.size && old(freeblock) + 2 * Touched(old(nodes[inum]).size, |data|) > sb.size)
    {
      hide RefOf, ByteAt, Wrote, SameInodes, MappedTo, Trimmed, Touched, Linked, Synced, ZeroTail, Appending, File,
           Decode, OthersSame;
      ghost var fs, f0 := View(), freeblock;
      assert Settled(fs, inum);
      var din := ReadInode(inum);
      var n := |data|;
      ghost var size := din.size;
      SizeFits(fs, inum);
      AppendStart(fs, freeblock, inum, data);
      var done := 0;
      while done < n
        invariant done <= n && Appending(fs, View(), f0, freeblock, inum, data, done) && inum < |nodes|
                  && nodes[inum] == din
        invariant din.size == size && size + done <= MAXFILE * BSIZE
        decreases n - done
      {
        var n1;
        ok, din, n1 := AppendOne(inum, din, data, done, fs, f0);
        if !ok {
          return;
        }
        done := done + n1;
      }
      ghost var fs3 := View();
      assert data[..n] == data;
      AppendLinked(fs, fs3, f0, freeblock, inum, data);
      din := din.(size := din.size + n);
      nodes := nodes[inum := din];
      assert View() == SetSize(fs3, inum, din.size);
      WriteInodeBlock(inum, din);
      AppendDone(fs, fs3, View(), f0, freeblock, inum, data);
      ok := true;
    }

    /** ialloc, while there are inodes: the next one gets a type and one link. */
    method Ialloc(type_: nat) returns (inum: nat)
      requires Image(View(), freeblock) && freeinode < |nodes| && nodes[freeinode] == NoNode() && type_ < 0x1_0000
      modifies this`freeinode, this`disk, this`nodes
      ensures Image(View(), freeblock) && inum < |nodes| && OthersSame(old(View()), View(), inum)
              && File(View(), inum) == []
      ensures inum == old(freeinode) && freeinode == inum + 1
              && nodes == old(nodes)[inum := NoNode().(head := (type_, 0x1_0000))]
    {
      hide RefOf, ByteAt, Linked, Synced, NoHoles, ZeroTail, File, OthersSame;
      ghost var fs := View();
      inum := freeinode;
      freeinode := freeinode + 1;
      var din := NoNode().(head := (type_, 0x1_0000));
      nodes := nodes[inum := din];
      NewHead(fs, View(), freeblock, inum, din);
      ghost var fs1 := View();
      WriteInodeBlock(inum, din);
      HeadWritten(fs, fs1, View(), freeblock, inum, din);
    }

    /** The end of main: the size of the root directory is rounded up, always by at least one
        byte, and the blocks handed out so far are marked in the free map.  No file has a hole
        then, unless the root directory already filled its last block. */
    method Finish()
      requires Image(View(), freeblock) && 1 < |nodes| && nodes[1].size < MAXFILE * BSIZE && freeblock < BPB
      modifies this`disk, this`nodes
      ensures Good(View(), {}) && (Consistent(View()) <==> old(nodes[1].size) % BSIZE != 0)
      ensures |nodes| == |old(nodes)| && (NoHoles(View(), 1) <==> old(nodes[1].size) % BSIZE != 0)
      ensures 1 < |nodes| && nodes[1].head == old(nodes[1].head)
      ensures OthersSame(old(View()), View(), 1)
      ensures 1 < |nodes| && File(View(), 1) == old(File(View(), 1)) + seq(BSIZE - old(nodes[1].size) % BSIZE, _ => 0)
    {
      hide RefOf, ByteAt, Linked, Synced, NoHoles, ZeroTail, File, OthersSame, Marked;
      ghost var fs := View();
      assert Settled(fs, 1);
      var din := ReadInode(1);
      ghost var size0 := din.size;
      din := din.(size := (din.size / BSIZE + 1) * BSIZE);
      nodes := nodes[1 := din];
      ghost var fs1 := View();
      assert fs1 == SetSize(fs, 1, din.size);
      ResizedPacked(fs, freeblock, 1, din.size);
      WriteInodeBlock(1, din);
      ghost var fs2 := View();
      Balloc(freeblock);
      KeptTrans(fs1, fs2, View());
      Finished(fs, fs1, fs2, View(), freeblock, size0, din.size);
    }

    /** balloc of mkfs: blocks below `used` are marked. */
    method Balloc(used: nat)
      requires Packed(View(), freeblock) && used == freeblock < BPB
      modifies this`disk
      ensures Good(View(), {}) && Kept(old(View()), View()) && SameInodes(old(View()), View())
    {
      hide RefOf, ByteAt, Linked, Bit, SetBit;
      var buf := ZeroBlock();
      NoBits();
      var i := 0;
      while i < used
        invariant i <= used && forall k: nat {:trigger Bit(buf, k)} :: k < BPB ==> (Bit(buf, k) <==> k < i)
      {
        forall k: nat | k < BPB
          ensures Bit(SetBit(buf, i), k) == (Bit(buf, k) || k == i)
        {
          BitsSeparate(buf, i, k);
        }
        buf := SetBit(buf, i);
        i := i + 1;
      }
      MapWritten(View(), freeblock, buf);
      disk := disk[sb.bmapstart := buf];
    }

    /** rinode. */
    method ReadInode(inum: nat) returns (din: Node)
      requires inum < |nodes| && Synced(View(), inum)
      ensures din == nodes[inum]
    {
      din := Decode(disk[IBlock(sb, inum)], inum % IPB);
    }

    /** winode. */
    method WriteInodeBlock(inum: nat, din: Node)
      requires Packed(View(), freeblock) && inum < |nodes| && nodes[inum] == din
      modifies this`disk
      ensures Packed(View(), freeblock) && Kept(old(View()), View())
      ensures forall j: nat {:trigger Synced(View(), j)} :: j < |nodes| ==>
              (Synced(View(), j) <==> j == inum || Synced(old(View()), j))
    {
      hide RefOf, ByteAt, Linked, Synced, Encode;
      WriteInodeSyncs(View(), inum);
      IBlockIsMeta(View(), inum);
      SuperOrder(View());
      disk := disk[IBlock(sb, inum) := Encode(disk[IBlock(sb, inum)], inum % IPB, din)];
      assert View() == WriteInode(old(View()), inum);
    }
  }

  // ----- main -----

  /** The layout mkfs makes: 2 blocks, LOGSIZE of log, 13 of inodes, 1 of free map. */
  const SB := Super(1000, 200, 32, 45, 46)

  const ROOTINO: nat := 1

  const DIRSIZ: nat := 14

  datatype Source = Source(name: seq<Byte>, contents: seq<Byte>)

  /** A directory entry: the inode number as a short and the name, cut or padded to DIRSIZ. */
  function Dirent(inum: nat, name: seq<Byte>): (d: seq<Byte>)
    requires inum < 0x1_0000
    ensures |d| == 16
  {
    [inum % 256, inum / 256] + seq(DIRSIZ, (k: nat) => if k < |name| then name[k] else 0)
  }

  /** The root directory after `n` files have been added. */
  function RootDir(files: seq<Source>, n: nat): (d: seq<Byte>)
    requires n <= |files| <= 0xFFF0
    ensures |d| == 16 * (n + 2)
  {
    if n == 0 then Dirent(ROOTINO, [46]) + Dirent(ROOTINO, [46, 46])
    else RootDir(files, n - 1) + Dirent(n + 1, files[n - 1].name)
  }

  /** An upper bound for the blocks the first `n` files and their entries take. */
  function Room(files: seq<Source>, n: nat): nat
    requires n <= |files|
  {
    if n == 0 then 4 else Room(files, n - 1) + 2 + 2 * Pieces(|files[n - 1].contents|)
  }

  predicate RoomFor(files: seq<Source>) {
    && SB.nmeta + Room(files, |files|) <= SB.size
    && forall j {:trigger files[j]} :: 0 <= j < |files| ==> |files[j].contents| <= MAXFILE * BSIZE
  }

  function Pieces(n: nat): nat { (n + BSIZE - 1) / BSIZE }

  lemma {:induction false} RoomGrows(files: seq<Source>, m: nat, n: nat)
    requires m <= n <= |files|
    ensures Room(files, m) <= Room(files, n)
  {
    if m < n { RoomGrows(files, m, n - 1); }
  }

  /** The loop of main that copies a file into the image, a block at a time. */
  method CopyFile(m: MkFs, inum: nat, contents: seq<Byte>) returns (ok: bool)
    requires Image(m.View(), m.freeblock) && inum < |m.nodes| && File(m.View(), inum) == []
    modifies m`freeblock, m`disk, m`nodes, m`owner
    ensures ok ==>
              && Image(m.View(), m.freeblock) && OthersSame(old(m.View()), m.View(), inum)
              && File(m.View(), inum) == contents && m.freeblock <= old(m.freeblock) + 2 * Pieces(|contents|)
              && inum < |m.nodes| && m.nodes[inum].head == old(m.nodes[inum].head)
    ensures !ok ==>
              |contents| > MAXFILE * BSIZE || old(m.freeblock) + 2 * Pieces(|contents|) > m.sb.size
  {
    hide Image, File, OthersSame;
    SameOthers(m.View(), inum);
    ok := true;
    var at := 0;
    while at < |contents|
      invariant at <= |contents| && (at == |contents| || at % BSIZE == 0)
      invariant Image(m.View(), m.freeblock) && OthersSame(old(m.View()), m.View(), inum) && inum < |m.nodes|
      invariant File(m.View(), inum) == contents[..at] && m.freeblock <= old(m.freeblock) + 2 * Pieces(at)
      invariant m.nodes[inum].head == old(m.nodes[inum].head)
    {
      var cc := if |contents| - at < BSIZE then |contents| - at else BSIZE;
      ghost var fs := m.View();
      FileSize(fs, inum);
      OnePiece(at, cc, |contents|);
      ok := m.Iappend(inum, contents[at..at + cc]);
      if !ok {
        return;
      }
      OthersTrans(old(m.View()), fs, m.View(), inum);
      assert contents[..at] + contents[at..at + cc] == contents[..at + cc];
      at := at + cc;
    }
    assert contents[..at] == contents;
  }

  lemma OnePiece(at: nat, cc: nat, n: nat)
    requires at % BSIZE == 0 && 0 < cc <= BSIZE && at + cc <= n && (cc < BSIZE ==> at + cc == n)
    ensures Touched(at, cc) == 1 && Pieces(at + cc) == Pieces(at) + 1 <= Pieces(n)
    ensures at + cc == n || (at + cc) % BSIZE == 0
  {
  }

  // types of inodes
  const T_DIR: nat := 1
  const T_FILE: nat := 2

  /** An inode that has just been made: its type, and one link. */
  function HeadOf(kind: nat): (UWord, UWord)
    requires kind < 0x1_0000
  {
    (kind, 0x1_0000)
  }

  /** The image after `n` files. */
  ghost predicate Made(fs: Fs, freeblock: nat, freeinode: nat, files: seq<Source>, n: nat) {
    && n <= |files| <= 198 && Image(fs, freeblock) && fs.sb == SB && |fs.nodes| == 200
    && freeinode == n + 2 && freeblock <= SB.nmeta + Room(files, n)
    && File(fs, ROOTINO) == RootDir(files, n)
    && fs.nodes[ROOTINO].head == HeadOf(T_DIR)
    && (forall j: nat {:trigger File(fs, j + 2)} :: j < n ==>
          File(fs, j + 2) == files[j].contents && fs.nodes[j + 2].head == HeadOf(T_FILE))
    && (forall i: nat {:trigger fs.nodes[i]} :: freeinode <= i < 200 ==> fs.nodes[i] == NoNode())
  }

  /** One iteration of main's loop over the files. */
  method AddFile(m: MkFs, ghost files: seq<Source>, ghost n: nat, file: Source) returns (ok: bool)
    requires n < |files| && file == files[n] && Made(m.View(), m.freeblock, m.freeinode, files, n)
    modifies m`freeinode, m`freeblock, m`disk, m`nodes, m`owner
    ensures ok ==> Made(m.View(), m.freeblock, m.freeinode, files, n + 1)
    ensures !ok ==> |file.contents| > MAXFILE * BSIZE || SB.nmeta + Room(files, n + 1) > SB.size
  {
    hide Image, File, OthersSame, Dirent;
    ghost var fs0 := m.View();
    FileSize(fs0, ROOTINO);
    var inum := m.Ialloc(T_FILE);
    ghost var fs1 := m.View();
    RootEntry(n);
    ok := m.Iappend(ROOTINO, Dirent(inum, file.name));
    if !ok {
      return;
    }
    ghost var fs2 := m.View();
    KeepsFile(fs1, fs2, ROOTINO, inum);
    ok := CopyFile(m, inum, file.contents);
    if ok {
      FileAdded(fs0, fs1, fs2, m.View(), files, n, m.freeblock);
    }
  }

  lemma RootEntry(n: nat)
    requires n < 198
    ensures Touched(16 * (n + 2), 16) == 1 && 16 * (n + 2) + 16 <= MAXFILE * BSIZE
  {
  }

  lemma KeepsFile(fs: Fs, fs': Fs, i: nat, j: nat)
    requires OthersSame(fs, fs', i) && j < |fs.nodes| && j != i
    ensures |fs'.nodes| == |fs.nodes| && File(fs', j) == File(fs, j) && fs'.nodes[j] == fs.nodes[j]
  {
  }

  lemma FileAdded(fs0: Fs, fs1: Fs, fs2: Fs, fs3: Fs, files: seq<Source>, n: nat, freeblock: nat)
    requires n < |files| <= 198 && |fs0.nodes| == 200 && fs3.sb == fs0.sb == SB
    requires File(fs0, ROOTINO) == RootDir(files, n)
    requires forall j: nat {:trigger File(fs0, j + 2)} :: j < n ==>
               File(fs0, j + 2) == files[j].contents && fs0.nodes[j + 2].head == HeadOf(T_FILE)
    requires fs0.nodes[ROOTINO].head == HeadOf(T_DIR)
    requires ROOTINO < |fs1.nodes| && ROOTINO < |fs2.nodes| && fs2.nodes[ROOTINO].head == fs1.nodes[ROOTINO].head
    requires n + 2 < |fs3.nodes| && fs3.nodes[n + 2].head == HeadOf(T_FILE)
    requires forall i: nat {:trigger fs0.nodes[i]} :: n + 2 <= i < 200 ==> fs0.nodes[i] == NoNode()
    requires OthersSame(fs0, fs1, n + 2) && OthersSame(fs1, fs2, ROOTINO) && OthersSame(fs2, fs3, n + 2)
    requires File(fs2, ROOTINO) == File(fs1, ROOTINO) + Dirent(n + 2, files[n].name)
    requires File(fs3, n + 2) == files[n].contents && Image(fs3, freeblock)
    requires freeblock <= SB.nmeta + Room(files, n) + 2 + 2 * Pieces(|files[n].contents|)
    ensures Made(fs3, freeblock, n + 3, files, n + 1)
  {
    hide Image, File, Dirent;
    forall j: nat | j < n
      ensures File(fs3, j + 2) == files[j].contents && fs3.nodes[j + 2].head == HeadOf(T_FILE)
    {
      assert File(fs3, j + 2) == File(fs2, j + 2) == File(fs1, j + 2) == File(fs0, j + 2);
      assert fs3.nodes[j + 2] == fs2.nodes[j + 2] == fs1.nodes[j + 2] == fs0.nodes[j + 2];
    }
    assert fs3.nodes[ROOTINO] == fs2.nodes[ROOTINO] && fs1.nodes[ROOTINO] == fs0.nodes[ROOTINO];
    forall i: nat | n + 3 <= i < 200
      ensures fs3.nodes[i] == NoNode()
    {
      assert fs3.nodes[i] == fs2.nodes[i] == fs1.nodes[i] == fs0.nodes[i];
    }
  }

  /** main, for files given by their short names; the superblock is not modelled.  Every file is in
      the image, and the accounts balance.  No file has a hole if and only if the number of entries of
      the root directory is not a multiple of 64.  `ok` is false if mkfs has died, which it does not
      as long as there is room. */
  method Make(files: seq<Source>) returns (ok: bool, m: MkFs)
    requires |files| <= 198   // ialloc does not look whether there is an inode left
    ensures fresh(m) && m.sb == SB
    ensures ok ==>
              && Good(m.View(), {}) && |m.nodes| == 200
              && (Consistent(m.View()) <==> (|files| + 2) % 64 != 0)
              && (NoHoles(m.View(), ROOTINO) <==> (|files| + 2) % 64 != 0)
              && (forall j: nat {:trigger files[j]} :: j < |files| ==>
                    File(m.View(), j + 2) == files[j].contents && m.nodes[j + 2].head == (2, 0x1_0000))
              && m.nodes[ROOTINO].head == (1, 0x1_0000)
              && File(m.View(), ROOTINO) == RootDir(files, |files|) + seq(BSIZE - 16 * (|files| + 2) % BSIZE, _ => 0)
    ensures RoomFor(files) ==> ok
  {
    hide Image, File, OthersSame, Dirent, Made, NoHoles, Good, Consistent, RootDir;
    m := new MkFs(SB);
    ok := StartRoot(m, files);
    var i := 0;
    while i < |files|
      invariant i <= |files| && fresh(m) && m.sb == SB && Made(m.View(), m.freeblock, m.freeinode, files, i)
    {
      RoomGrows(files, i + 1, |files|);
      ok := AddFile(m, files, i, files[i]);
      if !ok {
        return;
      }
      i := i + 1;
    }
    ok := true;
    MadeFacts(m.View(), m.freeblock, m.freeinode, files);
    ghost var fs := m.View();
    m.Finish();
    forall j: nat | j < |files|
      ensures File(m.View(), j + 2) == files[j].contents && m.nodes[j + 2].head == HeadOf(T_FILE)
    {
      MadeFile(fs, m.freeblock, m.freeinode, files, j);
      KeepsFile(fs, m.View(), ROOTINO, j + 2);
    }
  }

  lemma MadeFacts(fs: Fs, freeblock: nat, freeinode: nat, files: seq<Source>)
    requires Made(fs, freeblock, freeinode, files, |files|)
    ensures Image(fs, freeblock) && |fs.nodes| == 200 && freeblock < BPB && |files| <= 198
    ensures fs.nodes[ROOTINO].size == 16 * (|files| + 2) < MAXFILE * BSIZE
    ensures File(fs, ROOTINO) == RootDir(files, |files|) && fs.nodes[ROOTINO].head == HeadOf(T_DIR)
  {
    hide File;
    FileSize(fs, ROOTINO);
  }

  lemma MadeFile(fs: Fs, freeblock: nat, freeinode: nat, files: seq<Source>, j: nat)
    requires Made(fs, freeblock, freeinode, files, |files|) && j < |files|
    ensures |fs.nodes| == 200 && File(fs, j + 2) == files[j].contents && fs.nodes[j + 2].head == HeadOf(T_FILE)
  {
    hide File;
  }

  /** The part of main that makes the root directory. */
  method StartRoot(m: MkFs, ghost files: seq<Source>) returns (ok: bool)
    requires m.sb == SB && Image(m.View(), m.freeblock) && m.freeblock == SB.nmeta && m.freeinode == 1
    requires m.nodes == seq(200, _ => NoNode()) && |files| <= 198
    modifies m`freeinode, m`freeblock, m`disk, m`nodes, m`owner
    ensures ok && Made(m.View(), m.freeblock, m.freeinode, files, 0)
  {
    hide Image, File, OthersSame, Dirent;
    var rootino := m.Ialloc(T_DIR);
    ghost var fs1 := m.View();
    FileSize(fs1, rootino);
    ok := m.Iappend(rootino, Dirent(rootino, [46]));              // "."
    ghost var fs2 := m.View();
    FileSize(fs2, rootino);
    ok := m.Iappend(rootino, Dirent(rootino, [46, 46]));          // ".."
    KeepsFile(fs1, fs2, ROOTINO, 0);
    KeepsFile(fs2, m.View(), ROOTINO, 0);
    forall i: nat | 2 <= i < 200
      ensures m.View().nodes[i] == NoNode()
    {
      KeepsFile(fs1, fs2, ROOTINO, i);
      KeepsFile(fs2, m.View(), ROOTINO, i);
    }
    assert [] + Dirent(rootino, [46]) == Dirent(rootino, [46]);
  }

  function NoNode(): Node { Inode((0, 0), 0, NoAddrs()) }

  lemma SizeFits(fs: Fs, i: nat)
    requires i < |fs.nodes| && NoHoles(fs, i)
    ensures fs.nodes[i].size <= MAXFILE * BSIZE
  {
  }

  lemma EmptyImage(fs: Fs)
    requires GoodSuper(fs.sb) && |fs.disk| == fs.sb.size && |fs.nodes| == fs.sb.ninodes && fs.owner == map[]
    requires forall b: nat {:trigger fs.disk[b]} :: b < |fs.disk| ==> fs.disk[b] == ZeroBlock()
    requires forall i: nat {:trigger fs.nodes[i]} :: i < |fs.nodes| ==> fs.nodes[i] == NoNode()
    ensures Image(fs, fs.sb.nmeta)
    ensures forall i: nat {:trigger File(fs, i)} :: i < |fs.nodes| ==> File(fs, i) == []
  {
    forall i: nat, k: nat | i < |fs.nodes| && k < SLOTS
      ensures RefOf(fs, i, k) == 0
    {
      EmptyRef(fs, i, k);
    }
    hide RefOf;
    forall i: nat | i < |fs.nodes|
      ensures Settled(fs, i) && File(fs, i) == []
    {
      EmptySettled(fs, i);
    }
  }

  lemma EmptyRef(fs: Fs, i: nat, k: nat)
    requires i < |fs.nodes| && k < SLOTS && fs.nodes[i] == NoNode()
    ensures RefOf(fs, i, k) == 0
  {
  }

  lemma EmptySettled(fs: Fs, i: nat)
    requires Linked(fs) && i < |fs.nodes| && fs.nodes[i] == NoNode()
    requires forall b: nat {:trigger fs.disk[b]} :: b < |fs.disk| ==> fs.disk[b] == ZeroBlock()
    requires forall k: nat {:trigger RefOf(fs, i, k)} :: k < SLOTS ==> RefOf(fs, i, k) == 0
    ensures Settled(fs, i) && File(fs, i) == []
  {
    hide RefOf, Decode;
    IBlockIsMeta(fs, i);
    ZeroInode(i % IPB);
    assert fs.disk[IBlock(fs.sb, i)] == ZeroBlock();
  }

  lemma ZeroInode(slot: nat)
    requires slot < IPB
    ensures Decode(ZeroBlock(), slot) == NoNode()
  {
    hide Word;
    forall k: nat | k < 256
      ensures Word(ZeroBlock(), k) == 0
    {
      ZeroWords(k);
    }
    assert WordsFrom(ZeroBlock(), 16 * slot + 3, 13) == NoAddrs();
  }

  lemma SuperOrder(fs: Fs)
    requires Linked(fs)
    ensures fs.sb.bmapstart < fs.sb.nmeta && |fs.disk| == fs.sb.size
  {
  }

  lemma TableEntry(fs: Fs, f: nat, i: nat, j: nat)
    requires Packed(fs, f) && i < |fs.nodes| && j < NINDIRECT && fs.nodes[i].addrs[12] != 0
    ensures fs.nodes[i].addrs[12] < |fs.disk| && RefOf(fs, i, 13 + j) == Word(fs.disk[fs.nodes[i].addrs[12]], j)
  {
    assert RefOk(fs, i, 12);
    assert fs.nodes[i].addrs[12] in fs.owner ==> OwnerOk(fs, fs.nodes[i].addrs[12]);
  }

  lemma StorePacked(fs: Fs, f: nat, i: nat, off: nat, data: seq<Byte>)
    requires Packed(fs, f) && i < |fs.nodes| && off / BSIZE < MAXFILE && DataBlock(fs, i, off / BSIZE) != 0
    requires 0 < |data| <= BSIZE - off % BSIZE
    ensures var x := DataBlock(fs, i, off / BSIZE);
            && x < |fs.disk|
            && var fs' := Put(fs, x, Overlay(fs.disk[x], off % BSIZE, data));
               Packed(fs', f) && Wrote(fs, fs', i, off, data) && SameInodes(fs, fs')
               && (forall k: nat {:trigger RefOf(fs', i, k)} :: k < SLOTS ==> RefOf(fs', i, k) == RefOf(fs, i, k))
  {
    hide RefOf, ByteAt, Linked, Overlay, Wrote;
    SuperOrder(fs);
    StoreWrote(fs, i, off, data);
  }

  lemma NowTrimmed(a: Fs, b: Fs, i: nat, off: nat, m: nat)
    requires i < |a.nodes| && i < |b.nodes| && Trimmed(a, i, off) && m > 0 && off / BSIZE < MAXFILE
    requires forall k: nat {:trigger RefOf(b, i, k)} :: k < SLOTS && k != SlotFor(off / BSIZE) && k != 12 ==>
             RefOf(b, i, k) == RefOf(a, i, k)
    ensures Trimmed(b, i, off + m)
  {
    hide RefOf;
    forall bn: nat | bn < MAXFILE && bn * BSIZE >= off + m
      ensures DataBlock(b, i, bn) == 0
    {
      assert DataBlock(a, i, bn) == 0;
    }
  }

  lemma SameTrimmed(a: Fs, b: Fs, i: nat, limit: nat)
    requires i < |a.nodes| && i < |b.nodes| && Trimmed(a, i, limit)
    requires forall k: nat {:trigger RefOf(b, i, k)} :: k < SLOTS ==> RefOf(b, i, k) == RefOf(a, i, k)
    ensures Trimmed(b, i, limit)
  {
    hide RefOf;
    forall bn: nat | bn < MAXFILE && bn * BSIZE >= limit
      ensures DataBlock(b, i, bn) == 0
    {
      assert DataBlock(a, i, bn) == 0;
    }
  }

  lemma AppendStart(fs: Fs, f: nat, i: nat, data: seq<Byte>)
    requires Packed(fs, f) && i < |fs.nodes| && NoHoles(fs, i) && Trimmed(fs, i, fs.nodes[i].size)
    ensures Appending(fs, fs, f, f, i, data, 0)
  {
    hide RefOf, ByteAt;
    WrittenNone(fs, i, fs.nodes[i].size);
    MappedSoFar(fs, i, fs.nodes[i].size);
    assert data[..0] == [];
  }

  lemma AppendLinked(fs: Fs, fs3: Fs, f0: nat, f: nat, i: nat, data: seq<Byte>)
    requires Appending(fs, fs3, f0, f, i, data, |data|) && fs.nodes[i].size + |data| < UINT
    ensures Packed(fs3, f) && |fs3.nodes| == |fs.nodes| && Packed(SetSize(fs3, i, fs.nodes[i].size + |data|), f)
    ensures f <= f0 + 2 * Touched(fs.nodes[i].size, |data|)
  {
    hide RefOf, ByteAt, Linked;
    SetSizeLinked(fs3, i, fs.nodes[i].size + |data|);
  }

  lemma AppendDone(fs: Fs, fs3: Fs, fs4: Fs, f0: nat, f: nat, i: nat, data: seq<Byte>)
    requires forall j: nat {:trigger Settled(fs, j)} :: j < |fs.nodes| ==> Settled(fs, j)
    requires Linked(fs) && Appending(fs, fs3, f0, f, i, data, |data|) && fs.nodes[i].size + |data| <= MAXFILE * BSIZE
             && i < |fs3.nodes|
    requires Packed(fs4, f) && Kept(SetSize(fs3, i, fs.nodes[i].size + |data|), fs4)
    requires forall j: nat {:trigger Synced(fs4, j)} :: j < |fs4.nodes| ==>
               (Synced(fs4, j) <==> j == i || Synced(SetSize(fs3, i, fs.nodes[i].size + |data|), j))
    ensures Image(fs4, f) && OthersSame(fs, fs4, i) && File(fs4, i) == File(fs, i) + data && i < |fs4.nodes|
            && fs4.nodes[i].head == fs.nodes[i].head
  {
    hide RefOf, ByteAt, Linked, Synced, Wrote;
    var off := fs.nodes[i].size;
    assert data[..|data|] == data;
    WroteNodes(fs, fs3, i, off, data);
    var fs3' := SetSize(fs3, i, off + |data|);
    SetSizeLinked(fs3, i, off + |data|);
    forall j: nat | j < |fs.nodes|
      ensures Settled(fs4, j)
    {
      assert Settled(fs, j);
      if j != i { SameInodesSynced(fs, fs3', j); }
      forall bn: nat | bn < MAXFILE && bn * BSIZE < fs4.nodes[j].size
        ensures DataBlock(fs4, j, bn) != 0
      {
        WroteRefs(fs, fs3, i, off, data, j, bn);
        assert DataBlock(fs3', j, bn) == DataBlock(fs3, j, bn);
      }
      forall bn: nat | bn < MAXFILE && bn * BSIZE >= fs4.nodes[j].size
        ensures DataBlock(fs4, j, bn) == 0
      {
        WroteRefs(fs, fs3, i, off, data, j, bn);
        assert DataBlock(fs3', j, bn) == DataBlock(fs3, j, bn);
      }
      forall o: nat | fs4.nodes[j].size <= o
        ensures ByteAt(fs4, j, o) == 0
      {
        WroteByte(fs, fs3, i, off, data, j, o);
        assert ByteAt(fs4, j, o) == ByteAt(fs3', j, o) == ByteAt(fs3, j, o);
        assert ByteAt(fs, j, o) == 0;
      }
    }
    forall j: nat | j < |fs.nodes|
      ensures File(fs4, j) == if j == i then File(fs, i) + data else File(fs, j)
    {
      FileWritten(fs, fs3, i, off, data, off + |data|, j);
      assert File(fs4, j) == File(fs3', j);
    }
  }

  lemma WroteByte(fs: Fs, fs3: Fs, i: nat, off: nat, data: seq<Byte>, j: nat, o: nat)
    requires Wrote(fs, fs3, i, off, data) && j < |fs.nodes|
    ensures ByteAt(fs3, j, o) == if j == i && off <= o < off + |data| then data[o - off] else ByteAt(fs, j, o)
  {
  }

  lemma NoBits()
    ensures forall k: nat {:trigger Bit(ZeroBlock(), k)} :: k < BPB ==> !Bit(ZeroBlock(), k)
  {
  }

  /** The free map marks exactly the blocks below `f`. */
  lemma MapWritten(fs: Fs, f: nat, buf: Block)
    requires Packed(fs, f) && f < BPB && forall k: nat {:trigger Bit(buf, k)} :: k < BPB ==> (Bit(buf, k) <==> k < f)
    ensures fs.sb.bmapstart < |fs.disk|
    ensures var fs' := Put(fs, fs.sb.bmapstart, buf); Good(fs', {}) && Kept(fs, fs') && SameInodes(fs, fs')
  {
    hide RefOf, ByteAt, Bit;
    BBlockIsMeta(fs, 0);
    PutKept(fs, fs.sb.bmapstart, buf);
    var fs' := Put(fs, fs.sb.bmapstart, buf);
    NoBits();
    forall b: nat | b < fs.sb.size
      ensures Used(fs', b) <==> b < fs.sb.nmeta || b in fs.owner
    {
      BBlockIsMeta(fs, b);
      assert b >= BPB ==> fs'.disk[BBlock(fs.sb, b)] == ZeroBlock();
    }
  }

  lemma NewHead(fs: Fs, fs1: Fs, f: nat, i: nat, din: Node)
    requires Packed(fs, f) && i < |fs.nodes| && fs.nodes[i] == NoNode() && din == NoNode().(head := din.head)
    requires fs1 == fs.(nodes := fs.nodes[i := din])
    ensures Packed(fs1, f) && Kept(fs, fs1.(nodes := fs.nodes))
    ensures forall j: nat, k: nat {:trigger RefOf(fs1, j, k)} :: j < |fs.nodes| && k < SLOTS ==>
            RefOf(fs1, j, k) == RefOf(fs, j, k)
    ensures forall j: nat, o: nat {:trigger ByteAt(fs1, j, o)} :: j < |fs.nodes| ==>
            ByteAt(fs1, j, o) == ByteAt(fs, j, o)
  {
    assert forall j: nat, k: nat {:trigger RefOf(fs1, j, k)} :: j < |fs.nodes| && k < SLOTS ==>
           RefOf(fs1, j, k) == RefOf(fs, j, k);
    hide RefOf;
    forall j: nat, k: nat | j < |fs.nodes| && k < SLOTS
      ensures RefOk(fs1, j, k)
    {
      assert RefOk(fs, j, k);
    }
    forall b | b in fs1.owner
      ensures OwnerOk(fs1, b)
    {
      assert OwnerOk(fs, b);
    }
  }

  lemma HeadWritten(fs: Fs, fs1: Fs, fs2: Fs, f: nat, i: nat, din: Node)
    requires Image(fs, f) && i < |fs.nodes| && fs.nodes[i] == NoNode() && din == NoNode().(head := din.head)
    requires fs1 == fs.(nodes := fs.nodes[i := din]) && Packed(fs2, f) && Kept(fs1, fs2)
    requires forall j: nat, k: nat {:trigger RefOf(fs1, j, k)} :: j < |fs.nodes| && k < SLOTS ==>
             RefOf(fs1, j, k) == RefOf(fs, j, k)
    requires forall j: nat, o: nat {:trigger ByteAt(fs1, j, o)} :: j < |fs.nodes| ==>
             ByteAt(fs1, j, o) == ByteAt(fs, j, o)
    requires forall j: nat {:trigger Synced(fs2, j)} :: j < |fs2.nodes| ==>
             (Synced(fs2, j) <==> j == i || Synced(fs1, j))
    ensures Image(fs2, f) && OthersSame(fs, fs2, i) && File(fs2, i) == []
  {
    hide RefOf, ByteAt, Linked, Synced, NoHoles, ZeroTail, Trimmed, File, Kept;
    SameContents(fs, fs1, fs2);
    KeptNodes(fs1, fs2);
    forall j: nat | j < |fs.nodes|
      ensures Settled(fs2, j)
    {
      assert Settled(fs, j);
      if j != i { SameSynced(fs, fs1, j); }
      SameShape(fs, fs2, j);
    }
    forall j: nat | j < |fs.nodes|
      ensures File(fs2, j) == File(fs, j)
    {
      SameShape(fs, fs2, j);
    }
    FileSize(fs2, i);
  }

  lemma KeptNodes(fs: Fs, fs': Fs)
    requires Kept(fs, fs')
    ensures fs'.sb == fs.sb && fs'.nodes == fs.nodes && |fs'.disk| == |fs.disk|
  {
    hide RefOf, ByteAt;
  }

  /** A file with the same size, blocks and bytes. */
  lemma SameShape(fs: Fs, fs': Fs, j: nat)
    requires j < |fs.nodes| == |fs'.nodes| && fs'.nodes[j].size == fs.nodes[j].size
    requires forall j: nat, k: nat {:trigger RefOf(fs', j, k)} :: j < |fs.nodes| && k < SLOTS ==>
             RefOf(fs', j, k) == RefOf(fs, j, k)
    requires forall j: nat, o: nat {:trigger ByteAt(fs', j, o)} :: j < |fs.nodes| ==>
             ByteAt(fs', j, o) == ByteAt(fs, j, o)
    ensures File(fs', j) == File(fs, j) && (NoHoles(fs, j) ==> NoHoles(fs', j))
            && (ZeroTail(fs, j) ==> ZeroTail(fs', j))
    ensures Trimmed(fs, j, fs.nodes[j].size) ==> Trimmed(fs', j, fs.nodes[j].size)
  {
    hide RefOf, ByteAt;
    assert forall bn: nat {:trigger DataBlock(fs', j, bn)} :: bn < MAXFILE ==>
           DataBlock(fs', j, bn) == DataBlock(fs, j, bn);
  }

  lemma ResizedPacked(fs: Fs, f: nat, i: nat, size: UWord)
    requires Packed(fs, f) && i < |fs.nodes|
    ensures Packed(SetSize(fs, i, size), f)
  {
    hide RefOf, ByteAt, Linked;
    SetSizeLinked(fs, i, size);
  }

  /** Rounding up the size of the root directory leaves a hole exactly if it was a multiple of
      the block size. */
  lemma Finished(fs: Fs, fs1: Fs, fs2: Fs, fs3: Fs, f: nat, size0: nat, size: UWord)
    requires Image(fs, f) && 1 < |fs.nodes| && fs1 == SetSize(fs, 1, size) && Good(fs3, {})
    requires Linked(fs2) && Kept(fs1, fs2) && SameInodes(fs2, fs3) && Kept(fs1, fs3)
    requires size0 == fs.nodes[1].size < MAXFILE * BSIZE && size == (size0 / BSIZE + 1) * BSIZE
    requires forall j: nat {:trigger Synced(fs2, j)} :: j < |fs.nodes| ==>
             (Synced(fs2, j) <==> j == 1 || Synced(fs1, j))
    ensures Consistent(fs3) <==> size0 % BSIZE != 0
    ensures NoHoles(fs3, 1) <==> size0 % BSIZE != 0
    ensures OthersSame(fs, fs3, 1)
    ensures File(fs3, 1) == File(fs, 1) + seq(BSIZE - size0 % BSIZE, _ => 0)
  {
    hide RefOf, ByteAt, Linked, Marked, Synced;
    SetSizeLinked(fs, 1, size);
    SameContents(fs, fs1, fs3);
    assert Settled(fs, 1);
    RootHole(fs, fs3, size0, size);
    forall j: nat | j < |fs.nodes|
      ensures Synced(fs3, j) && (j != 1 ==> NoHoles(fs3, j))
    {
      assert Settled(fs, j);
      assert j != 1 ==> Synced(fs1, j) == Synced(fs, j) by { if j != 1 { SameSynced(fs, fs1, j); } }
      SameInodesSynced(fs2, fs3, j);
      assert j != 1 ==> forall bn: nat {:trigger DataBlock(fs3, j, bn)} :: bn < MAXFILE ==>
             DataBlock(fs3, j, bn) == DataBlock(fs, j, bn);
    }
    if size0 % BSIZE == 0 {
      assert !Whole(fs3, 1);
    }
    var got, want := File(fs3, 1), File(fs, 1) + seq(BSIZE - size0 % BSIZE, _ => 0);
    forall o: nat | o < size
      ensures got[o] == want[o]
    {
      assert got[o] == ByteAt(fs3, 1, o) == ByteAt(fs, 1, o);
    }
    assert got == want;
  }

  lemma SameContents(fs: Fs, fs1: Fs, fs3: Fs)
    requires |fs1.nodes| == |fs.nodes| && Kept(fs1, fs3)
    requires forall j: nat, k: nat {:trigger RefOf(fs1, j, k)} :: j < |fs.nodes| && k < SLOTS ==>
             RefOf(fs1, j, k) == RefOf(fs, j, k)
    requires forall j: nat, o: nat {:trigger ByteAt(fs1, j, o)} :: j < |fs.nodes| ==>
             ByteAt(fs1, j, o) == ByteAt(fs, j, o)
    ensures forall j: nat, k: nat {:trigger RefOf(fs3, j, k)} :: j < |fs.nodes| && k < SLOTS ==>
            RefOf(fs3, j, k) == RefOf(fs, j, k)
    ensures forall j: nat, o: nat {:trigger ByteAt(fs3, j, o)} :: j < |fs.nodes| ==>
            ByteAt(fs3, j, o) == ByteAt(fs, j, o)
  {
    hide RefOf, ByteAt;
    forall j: nat, k: nat | j < |fs.nodes| && k < SLOTS
      ensures RefOf(fs3, j, k) == RefOf(fs, j, k)
    {
      assert RefOf(fs1, j, k) == RefOf(fs, j, k);
    }
    forall j: nat, o: nat | j < |fs.nodes|
      ensures ByteAt(fs3, j, o) == ByteAt(fs, j, o)
    {
      assert ByteAt(fs1, j, o) == ByteAt(fs, j, o);
    }
  }

  lemma SameSynced(fs: Fs, fs1: Fs, j: nat)
    requires j < |fs.nodes| == |fs1.nodes| && fs1.sb == fs.sb && fs1.disk == fs.disk && fs1.nodes[j] == fs.nodes[j]
    ensures Synced(fs1, j) == Synced(fs, j)
  {
  }

  lemma RootHole(fs: Fs, fs3: Fs, size0: nat, size: nat)
    requires 1 < |fs.nodes| == |fs3.nodes| && fs3.nodes[1].size == size && fs.nodes[1].size == size0 < MAXFILE * BSIZE
    requires NoHoles(fs, 1) && Trimmed(fs, 1, size0) && size == (size0 / BSIZE + 1) * BSIZE
    requires forall j: nat, k: nat {:trigger RefOf(fs3, j, k)} :: j < |fs.nodes| && k < SLOTS ==>
             RefOf(fs3, j, k) == RefOf(fs, j, k)
    ensures NoHoles(fs3, 1) <==> size0 % BSIZE != 0
  {
    hide RefOf;
    var top := size0 / BSIZE;
    assert DataBlock(fs3, 1, top) == DataBlock(fs, 1, top);
    if size0 % BSIZE != 0 {
      forall bn: nat | bn < MAXFILE && bn * BSIZE < size
        ensures DataBlock(fs3, 1, bn) != 0
      {
        assert DataBlock(fs3, 1, bn) == DataBlock(fs, 1, bn);
      }
    }
  }
}
