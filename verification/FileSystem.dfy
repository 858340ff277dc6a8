/** fs.c: block allocation, and inodes as byte sequences. */
module FileSystem {
  import opened Common
  import opened FsDisk
  import opened FsModel
  import opened FsFiles

  /** No block is free. */
  ghost predicate Full(fs: Fs) {
    forall c: nat {:trigger Used(fs, c)} :: c < fs.sb.size && BBlock(fs.sb, c) < |fs.disk| ==> Used(fs, c)
  }

  /** `b` is the lowest free block. */
  ghost predicate FirstFree(fs: Fs, b: nat) {
    && b < fs.sb.size && BBlock(fs.sb, b) < |fs.disk| && !Used(fs, b)
    && forall c: nat {:trigger Used(fs, c)} :: c < b && c < fs.sb.size && BBlock(fs.sb, c) < |fs.disk| ==> Used(fs, c)
  }

  /** Between operations: the accounts balance, no file has a hole, the disk has every inode. */
  ghost predicate Consistent(fs: Fs) {
    Good(fs, {}) && forall j: nat {:trigger Whole(fs, j)} :: j < |fs.nodes| ==> Whole(fs, j)
  }

  ghost predicate Whole(fs: Fs, j: nat)
    requires j < |fs.nodes|
  {
    NoHoles(fs, j) && Synced(fs, j)
  }

  /** No file but that of inode `i` is different. */
  ghost predicate OthersSame(fs: Fs, fs': Fs, i: nat) {
    && |fs'.nodes| == |fs.nodes|
    && forall j: nat {:trigger File(fs', j)} {:trigger fs'.nodes[j]} :: j < |fs.nodes| && j != i ==>
         File(fs', j) == File(fs, j) && fs'.nodes[j] == fs.nodes[j]
  }

  lemma SameOthers(fs: Fs, i: nat)
    ensures OthersSame(fs, fs, i)
  {
  }

  lemma OthersTrans(a: Fs, b: Fs, c: Fs, i: nat)
    requires OthersSame(a, b, i) && OthersSame(b, c, i)
    ensures OthersSame(a, c, i)
  {
    forall j: nat | j < |a.nodes| && j != i
      ensures File(c, j) == File(a, j) && c.nodes[j] == a.nodes[j]
    {
      assert File(c, j) == File(b, j) && c.nodes[j] == b.nodes[j];
    }
  }

  /** The blocks of `freed` are free now, and the others as before. */
  ghost predicate FreesOnly(fs: Fs, fs': Fs, freed: set<nat>) {
    fs'.sb == fs.sb && |fs'.disk| == |fs.disk| &&
    forall b: nat {:trigger Used(fs', b)} :: b < fs.sb.size && BBlock(fs.sb, b) < |fs.disk| ==>
      (Used(fs', b) <==> Used(fs, b) && b !in freed)
  }

  /** An inode in memory. */
  class Ip {
    const inum: nat
    var head: (UWord, UWord)
    var size: UWord
    var addrs: seq<UWord>

    constructor (i: nat)
      ensures inum == i
    {
      inum := i;
    }

    ghost predicate Holds(fs: Fs)
      reads this
    {
      inum < |fs.nodes| && |addrs| == 13 && fs.nodes[inum] == Inode(head, size, addrs)
    }
  }

  class FileSystem {
    const sb: Super
    var disk: seq<Block>                   // every block as the buffer cache and the log show it
    ghost var nodes: seq<Node>
    ghost var owner: map<nat, (nat, nat)>
    var dirty: set<nat>                    // blocks given to log_write since begin_op
    ghost var start: seq<Block>            // the disk as it was then

    ghost function View(): Fs
      reads this
    {
      Fs(sb, disk, nodes, owner)
    }

    /** The file system on a disk, before any operation. */
    constructor (sb: Super, disk: seq<Block>, ghost nodes: seq<Node>, ghost owner: map<nat, (nat, nat)>)
      ensures View() == Fs(sb, disk, nodes, owner) && Logged() && dirty == {} && start == disk
    {
      this.sb, this.disk, this.nodes, this.owner := sb, disk, nodes, owner;
      dirty, start := {}, disk;
    }

    /** What has changed since begin_op has been given to log_write, and lies behind the log. */
    ghost predicate Logged()
      reads this`disk, this`dirty, this`start
    {
      LoggedBut(|disk|)
    }

    /** The same except for block `but`. */
    ghost predicate LoggedBut(but: nat)
      reads this`disk, this`dirty, this`start
    {
      && |start| == |disk|
      && (forall x {:trigger disk[x]} :: 0 <= x < |disk| && x != but && x !in dirty ==> disk[x] == start[x])
      && forall x {:trigger x in dirty} :: x in dirty ==> sb.inodestart <= x < |disk|
    }

    /** begin_op: from here on changes are accounted for. */
    method Begin()
      modifies this`dirty, this`start
      ensures Logged() && dirty == {} && start == disk
    {
      dirty, start := {}, disk;
    }

    method LogWrite(x: nat, blk: Block)
      requires sb.inodestart <= x < |disk| && Logged()
      modifies this`disk, this`dirty
      ensures Logged() && View() == Put(old(View()), x, blk) && dirty == old(dirty) + {x}
    {
      disk := disk[x := blk];
      dirty := dirty + {x};
    }

    /** The two writes of balloc: the bit is set, the block is zeroed. */
    method Take(b: nat, ghost pend: set<nat>)
      requires Good(View(), pend) && b < sb.size && BBlock(sb, b) < |disk| && !Used(View(), b)
      requires Logged()
      modifies this`disk, this`dirty
      ensures Logged()
      ensures b !in pend && b !in owner && 0 < sb.nmeta <= b
      ensures Good(View(), pend + {b}) && Kept(old(View()), View()) && SameInodes(old(View()), View())
      ensures disk[b] == ZeroBlock() && dirty == old(dirty) + {BBlock(sb, b), b}
    {
      hide Logged, Used, RefOf, ByteAt, SetBit;
      BBlockIsMeta(View(), b);
      Marks(View(), b, pend);
      LogWrite(BBlock(sb, b), SetBit(disk[BBlock(sb, b)], b % BPB));
      assert View() == MarkBit(old(View()), b);
      ghost var fs1 := View();
      PutKept(fs1, b, ZeroBlock());
      PutMarked(fs1, b, ZeroBlock(), pend + {b});
      KeptTrans(old(View()), fs1, Put(fs1, b, ZeroBlock()));
      LogWrite(b, ZeroBlock());          // bzero
    }

    /** balloc: the first free block, zeroed, or 0 if there is none. */
    method Balloc(ghost pend: set<nat>) returns (b: nat)
      requires Good(View(), pend)
      requires Logged()
      modifies this`disk, this`dirty
      ensures Logged()
      ensures b == 0 ==> disk == old(disk) && dirty == old(dirty) && Full(View())
      ensures b != 0 ==> FirstFree(old(View()), b) && b !in pend && b !in owner && sb.nmeta <= b
      ensures b != 0 ==> Good(View(), pend + {b}) && Kept(old(View()), View()) && SameInodes(old(View()), View())
      ensures b != 0 ==> disk[b] == ZeroBlock() && dirty == old(dirty) + {BBlock(sb, b), b}
    {
      hide Logged, Good, Kept, SameInodes, Used, RefOf, ByteAt, Bit, UsedBelow;
      UsedBelowMore(View(), 0);
      var base := 0;
      while base < sb.size
        invariant base % BPB == 0 && disk == old(disk) && dirty == old(dirty) && UsedBelow(View(), base)
      {
        MapBlockExists(View(), pend, base);
        var bp := disk[BBlock(sb, base)];
        var bi := 0;
        while bi < BPB && base + bi < sb.size
          invariant bi <= BPB && disk == old(disk) && dirty == old(dirty) && UsedBelow(View(), base + bi)
        {
          SameMapBlock(View(), base, bi);
          if !Bit(bp, bi) {
            LowestFree(View(), base + bi);
            Take(base + bi, pend);
            return base + bi;
          }
          UsedBelowMore(View(), base + bi);
          bi := bi + 1;
        }
        UsedBelowUpTo(View(), base, bi);
        base := base + BPB;
      }
      AllUsed(View(), base);
      b := 0;
    }

    /** bfree.  Its panic is excluded: only blocks in use are given back. */
    method Bfree(b: nat, ghost pend: set<nat>)
      requires Good(View(), pend) && b in pend
      requires Logged()
      modifies this`disk, this`dirty
      ensures Logged()
      ensures Good(View(), pend - {b}) && Kept(old(View()), View()) && SameInodes(old(View()), View())
      ensures sb.bmapstart <= BBlock(sb, b) < sb.nmeta && View() == WipeBit(old(View()), b)
              && dirty == old(dirty) + {BBlock(sb, b)}
    {
      hide Logged, RefOf, ByteAt, Bit, ClearBit;
      BBlockIsMeta(View(), b);
      var bp := disk[BBlock(sb, b)];
      assert Used(View(), b) && Bit(bp, b % BPB);      // no "freeing free block" panic
      Wipes(View(), b, pend);
      LogWrite(BBlock(sb, b), ClearBit(bp, b % BPB));
    }

    /** A block just allocated goes into an empty slot of the inode. */
    method SetAddr(ip: Ip, k: nat, b: UWord, ghost pend: set<nat>)
      requires Good(View(), pend) && ip.Holds(View()) && b in pend && k <= 12 && ip.addrs[k] == 0
      requires b < |disk| && disk[b] == ZeroBlock()
      modifies ip`addrs, this`nodes, this`owner
      ensures View() == LinkAddr(old(View()), ip.inum, k, b) && ip.Holds(View()) && ip.addrs == old(ip.addrs)[k := b]
      ensures Good(View(), pend - {b}) && Wrote(old(View()), View(), ip.inum, 0, []) && SameInodes(old(View()), View())
      ensures RefOf(View(), ip.inum, k) == b
      ensures forall k': nat {:trigger RefOf(View(), ip.inum, k')} :: k' < SLOTS && k' != k ==>
              RefOf(View(), ip.inum, k') == RefOf(old(View()), ip.inum, k')
    {
      hide RefOf, ByteAt, Used;
      ghost var fs := View();
      AddrRef(fs, ip.inum, k);
      LinkAddrWrote(fs, ip.inum, k, b, 0);
      ip.addrs := ip.addrs[k := b];
      nodes := nodes[ip.inum := FsModel.SetAddr(nodes[ip.inum], k, b)];
      owner := owner[b := (ip.inum, k)];
      forall c: nat | c < sb.size
        ensures BBlock(sb, c) < |disk| && Used(View(), c) == Used(fs, c)
      {
        BBlockIsMeta(fs, c);
        SameUsed(fs, View(), c);
      }
      LinkGood(fs, View(), pend, ip.inum, k, b);
    }

    /** The same for an empty entry of the indirect block. */
    method SetEntry(ip: Ip, j: nat, b: UWord, ghost pend: set<nat>)
      requires Good(View(), pend) && ip.Holds(View()) && b in pend && j < NINDIRECT && ip.addrs[12] != 0
      requires RefOf(View(), ip.inum, 13 + j) == 0 && b < |disk| && disk[b] == ZeroBlock()
      requires Logged()
      modifies this`disk, this`owner, this`dirty
      ensures Logged()
      ensures ip.Holds(View()) && dirty == old(dirty) + {ip.addrs[12]}
      ensures Good(View(), pend - {b}) && Wrote(old(View()), View(), ip.inum, 0, []) && SameInodes(old(View()), View())
      ensures RefOf(View(), ip.inum, 13 + j) == b
      ensures forall k': nat {:trigger RefOf(View(), ip.inum, k')} :: k' < SLOTS && k' != 13 + j ==>
              RefOf(View(), ip.inum, k') == RefOf(old(View()), ip.inum, k')
    {
      hide Logged, RefOf, ByteAt, Used, PutWord;
      ghost var fs := View();
      var t := ip.addrs[12];
      LinkEntryWrote(fs, ip.inum, j, b, 0);
      forall c: nat | c < sb.size
        ensures BBlock(sb, c) < |disk| && Used(LinkEntry(fs, ip.inum, j, b), c) == Used(fs, c)
      {
        BBlockIsMeta(fs, c);
        PutUsed(fs, t, PutWord(fs.disk[t], j, b), c);
        SameUsed(Put(fs, t, PutWord(fs.disk[t], j, b)), LinkEntry(fs, ip.inum, j, b), c);
      }
      LogWrite(t, PutWord(disk[t], j, b));
      owner := owner[b := (ip.inum, 13 + j)];
      assert View() == LinkEntry(fs, ip.inum, j, b);
      LinkGood(fs, View(), pend, ip.inum, 13 + j, b);
    }

    /** The step bmap takes for a direct block and for the indirect block: the address in
        ip->addrs[k], allocated if it is 0.  `bits` are the free-map blocks written. */
    method AddrOrAlloc(ip: Ip, k: nat) returns (addr: UWord, ghost bits: set<nat>)
      requires Good(View(), {}) && ip.Holds(View()) && k <= 12
      requires Logged()
      modifies this`disk, this`nodes, this`owner, this`dirty, ip`addrs
      ensures Logged()
      ensures Good(View(), {}) && ip.Holds(View()) && Wrote(old(View()), View(), ip.inum, 0, [])
              && SameInodes(old(View()), View())
      ensures addr == ip.addrs[k] == RefOf(View(), ip.inum, k) && forall k' :: 0 <= k' <= 12 && k' != k ==>
              ip.addrs[k'] == old(ip.addrs)[k']
      ensures forall k': nat {:trigger RefOf(View(), ip.inum, k')} :: k' < SLOTS && k' != k ==>
              RefOf(View(), ip.inum, k') == RefOf(old(View()), ip.inum, k')
      ensures addr == 0 ==> Full(View())
      ensures addr == old(ip.addrs)[k] ==> View() == old(View()) && dirty == old(dirty) && bits == {}
      ensures addr != old(ip.addrs)[k] ==> old(ip.addrs)[k] == 0 && |bits| == 1 && dirty == old(dirty) + bits + {addr}
      ensures MapBlocks(sb, bits)
    {
      hide Logged, Good, RefOf, ByteAt, Used, Kept, Full;
      AddrRef(View(), ip.inum, k);
      KeptSelf(View(), ip.inum);
      addr, bits := ip.addrs[k], {};
      if addr == 0 {
        var b := Balloc({});
        if b == 0 {
          return;
        }
        ghost var fs1 := View();
        SizesFit(old(View()), fs1, b);
        AddrRef(fs1, ip.inum, k);
        KeptWrote(old(View()), fs1, ip.inum, 0);
        SetAddr(ip, k, b, {} + {b});
        assert {} + {b} - {b} == {};
        WroteNone(old(View()), fs1, View(), ip.inum);
        KeptRefs(old(View()), fs1, ip.inum);
        bits := {BBlock(sb, b)};
        addr := b;
      }
    }

    /** The step bmap takes for an entry of the indirect block. */
    method EntryOrAlloc(ip: Ip, j: nat) returns (addr: UWord, ghost bits: set<nat>)
      requires Good(View(), {}) && ip.Holds(View()) && j < NINDIRECT && ip.addrs[12] != 0
      requires Logged()
      modifies this`disk, this`nodes, this`owner, this`dirty
      ensures Logged()
      ensures Good(View(), {}) && ip.Holds(View()) && Wrote(old(View()), View(), ip.inum, 0, [])
              && SameInodes(old(View()), View())
      ensures addr == RefOf(View(), ip.inum, 13 + j)
      ensures forall k': nat {:trigger RefOf(View(), ip.inum, k')} :: k' < SLOTS && k' != 13 + j ==>
              RefOf(View(), ip.inum, k') == RefOf(old(View()), ip.inum, k')
      ensures addr == 0 ==> Full(View())
      ensures addr == RefOf(old(View()), ip.inum, 13 + j) ==> View() == old(View()) && dirty == old(dirty) && bits == {}
      ensures addr != RefOf(old(View()), ip.inum, 13 + j) ==> RefOf(old(View()), ip.inum, 13 + j) == 0
      ensures |bits| <= 1 && dirty <= old(dirty) + bits + ({addr, ip.addrs[12]} - {0}) && MapBlocks(sb, bits)
      ensures old(dirty) <= dirty && (addr != RefOf(old(View()), ip.inum, 13 + j) ==> addr in dirty)
    {
      hide Logged, Good, RefOf, ByteAt, Used, Kept, Full, Wrote;
      EntryRef(View(), ip.inum, j);
      KeptSelf(View(), ip.inum);
      var t := ip.addrs[12];
      addr, bits := Word(disk[t], j), {};
      if addr == 0 {
        var b := Balloc({});
        if b != 0 {
          ghost var fs1 := View();
          SizesFit(old(View()), fs1, b);
          KeptWrote(old(View()), fs1, ip.inum, 0);
          KeptRefs(old(View()), fs1, ip.inum);
          SetEntry(ip, j, b, {} + {b});
          assert {} + {b} - {b} == {};
          WroteNone(old(View()), fs1, View(), ip.inum);
          bits := {BBlock(sb, b)};
          addr := b;
        }
      }
    }

    /** The indirect case of bmap. */
    method BmapIndirect(ip: Ip, j: nat) returns (r: UWord, ghost bits: set<nat>)
      requires Good(View(), {}) && ip.Holds(View()) && j < NINDIRECT
      requires Logged()
      modifies this`disk, this`nodes, this`owner, this`dirty, ip`addrs
      ensures Logged()
      ensures Good(View(), {}) && ip.Holds(View()) && Wrote(old(View()), View(), ip.inum, 0, [])
              && SameInodes(old(View()), View())
      ensures r == RefOf(View(), ip.inum, 13 + j)
      ensures r == 0 ==> Full(View())
      ensures RefOf(old(View()), ip.inum, 13 + j) != 0 ==> View() == old(View()) && dirty == old(dirty) && bits == {}
      ensures dirty <= old(dirty) + bits + ({r, ip.addrs[12]} - {0}) && MapBlocks(sb, bits)
      ensures old(ip.addrs)[12] != 0 ==> ip.addrs[12] == old(ip.addrs)[12]
      ensures |bits| <= NewTable(old(ip.addrs)[12], ip.addrs[12])
                        + if r != RefOf(old(View()), ip.inum, 13 + j) then 1 else 0
      ensures old(dirty) <= dirty && (r != RefOf(old(View()), ip.inum, 13 + j) ==> r in dirty)
      ensures forall k: nat {:trigger RefOf(View(), ip.inum, k)} :: k < SLOTS && k != 12 && k != 13 + j ==>
              RefOf(View(), ip.inum, k) == RefOf(old(View()), ip.inum, k)
    {
      hide Logged, Good, RefOf, ByteAt, Used, Full, Wrote, SameInodes, MapBlocks;
      AddrRef(View(), ip.inum, 12);
      EntryRef(View(), ip.inum, j);
      var t;
      t, bits := AddrOrAlloc(ip, 12);
      if t == 0 {
        return 0, bits;
      }
      ghost var fs1 := View();
      ghost var bits2;
      r, bits2 := EntryOrAlloc(ip, j);
      WroteNone(old(View()), fs1, View(), ip.inum);
      SameInodesTrans(old(View()), fs1, View());
      MapBlocksUnion(sb, bits, bits2);
      bits := bits + bits2;
    }

    /** bmap.  Its panic is excluded: `bn` is within a file of the largest size.  `bits` are
        the free-map blocks written. */
    method Bmap(ip: Ip, bn: nat) returns (r: UWord, ghost bits: set<nat>)
      requires Good(View(), {}) && ip.Holds(View()) && bn < MAXFILE
      requires Logged()
      modifies this`disk, this`nodes, this`owner, this`dirty, ip`addrs
      ensures Logged()
      ensures Good(View(), {}) && ip.Holds(View()) && Wrote(old(View()), View(), ip.inum, 0, [])
              && SameInodes(old(View()), View())
      ensures r == DataBlock(View(), ip.inum, bn)
      ensures r == 0 ==> Full(View())
      ensures DataBlock(old(View()), ip.inum, bn) != 0 ==> View() == old(View()) && dirty == old(dirty) && bits == {}
      ensures dirty <= old(dirty) + bits + ({r, ip.addrs[12]} - {0}) && MapBlocks(sb, bits)
      ensures old(ip.addrs)[12] != 0 ==> ip.addrs[12] == old(ip.addrs)[12]
      ensures |bits| <= NewTable(old(ip.addrs)[12], ip.addrs[12])
                        + if r != DataBlock(old(View()), ip.inum, bn) then 1 else 0
      ensures old(dirty) <= dirty && (r != DataBlock(old(View()), ip.inum, bn) ==> r in dirty)
      ensures forall k: nat {:trigger RefOf(View(), ip.inum, k)} :: k < SLOTS && k != 12 && k != SlotFor(bn) ==>
              RefOf(View(), ip.inum, k) == RefOf(old(View()), ip.inum, k)
    {
      hide Logged, Good, RefOf, ByteAt, Used, Full, Wrote, SameInodes, MapBlocks;
      if bn < NDIRECT {
        AddrRef(View(), ip.inum, bn);
        r, bits := AddrOrAlloc(ip, bn);
      } else {
        r, bits := BmapIndirect(ip, bn - NDIRECT);
      }
    }

    /** One iteration of readi: at most `want` bytes of the block that byte `o` is in. */
    method ReadOne(ip: Ip, o: nat, want: nat) returns (piece: seq<Byte>)
      requires Good(View(), {}) && ip.Holds(View()) && NoHoles(View(), ip.inum) && 0 < want && o + want <= ip.size
      requires Logged()
      modifies this`disk, this`nodes, this`owner, this`dirty, ip`addrs
      ensures Logged()
      ensures View() == old(View()) && dirty == old(dirty) && ip.Holds(View())
      ensures 0 < |piece| <= want && o + |piece| <= |File(View(), ip.inum)|
              && piece == File(View(), ip.inum)[o..o + |piece|]
    {
      hide Logged, Good, RefOf, Wrote, SameInodes, Full, File, NoHoles, DataBlock;
      FileSize(View(), ip.inum);
      MappedAt(View(), ip.inum, o);
      var addr, bits := Bmap(ip, o / BSIZE);        // does not allocate, so is not 0
      var bp := disk[addr];
      var m := if want < BSIZE - o % BSIZE then want else BSIZE - o % BSIZE;
      Slice(View(), ip.inum, o, m);
      piece := bp[o % BSIZE..o % BSIZE + m];
    }

    /** readi: the wanted part of the file, if the destination takes all of it; it has room for
        `room` bytes.  Otherwise -1, after as many bytes as there is room for.  It never allocates
        a block. */
    method Readi(ip: Ip, off: UWord, n: UWord, room: nat) returns (r: int, dst: seq<Byte>)
      requires Consistent(View()) && ip.Holds(View())
      requires Logged()
      modifies this`disk, this`nodes, this`owner, this`dirty, ip`addrs
      ensures Logged()
      ensures View() == old(View()) && dirty == old(dirty) && ip.Holds(View())
      ensures var wanted := if off > ip.size || off + n >= UINT then []
                            else File(View(), ip.inum)[off..if off + n > ip.size then ip.size else off + n];
              if |wanted| <= room then r == |wanted| && dst == wanted else r == -1 && dst == wanted[..room]
    {
      hide Logged, Good, RefOf, Consistent, File, NoHoles, Whole, Synced;
      var tot: nat := 0;
      r, dst := 0, [];
      FileSize(View(), ip.inum);
      if off > ip.size || (off + n) % UINT < off {
        return;
      }
      WholeFacts(View(), ip.inum);
      ghost var fs, file := View(), File(View(), ip.inum);
      var want := if off + n > ip.size then ip.size - off else n;
      while tot < want
        invariant tot <= want && tot == |dst| <= room && View() == fs && dirty == old(dirty) && ip.Holds(fs)
        invariant ip.size == old(ip.size) && dst == file[off..off + tot]
        decreases want - tot
      {
        var piece := ReadOne(ip, off + tot, want - tot);
        Adjacent(file, off, off + tot, off + tot + |piece|);
        if tot + |piece| > room {                    // either_copyout fails, part of the way
          PartOf(file, off, want, tot, piece, room - tot);
          return -1, dst + piece[..room - tot];
        }
        dst := dst + piece;
        tot := tot + |piece|;
      }
      r := tot;
    }

    /** iupdate. */
    method Iupdate(ip: Ip, ghost but: nat)
      requires Good(View(), {}) && ip.Holds(View())
      requires LoggedBut(but)
      modifies this`disk, this`dirty
      ensures LoggedBut(but) && |disk| == |old(disk)| && IBlock(sb, ip.inum) < sb.nmeta
      ensures forall x {:trigger disk[x]} :: 0 <= x < |disk| && x != IBlock(sb, ip.inum) ==> disk[x] == old(disk)[x]
      ensures Good(View(), {}) && ip.Holds(View()) && Kept(old(View()), View())
              && dirty == old(dirty) + {IBlock(sb, ip.inum)}
      ensures forall j: nat {:trigger Synced(View(), j)} :: j < |nodes| ==>
              (Synced(View(), j) <==> j == ip.inum || Synced(old(View()), j))
    {
      hide Logged, Linked, Marked, RefOf, ByteAt, Encode, Synced;
      WriteInodeSyncs(View(), ip.inum);
      WriteInodeGood(View(), ip.inum, {});
      MetaOrder(View(), ip.inum);
      var x := IBlock(sb, ip.inum);
      disk := disk[x := Encode(disk[x], ip.inum % IPB, Inode(ip.head, ip.size, ip.addrs))];
      dirty := dirty + {x};              // log_write
      assert View() == WriteInode(old(View()), ip.inum);
    }

    /** ilock's copy of an inode from disk. */
    method Ilock(ip: Ip)
      requires Consistent(View()) && ip.inum < |nodes|
      modifies ip
      ensures ip.Holds(View())
    {
      hide Good, RefOf, ByteAt, Word, NoHoles;
      assert Whole(View(), ip.inum);
      var dip := Decode(disk[IBlock(sb, ip.inum)], ip.inum % IPB);
      ip.head, ip.size, ip.addrs := dip.head, dip.size, dip.addrs;
    }

    /** log_write of a block that has been changed already. */
    method MarkDirty(x: nat)
      requires sb.inodestart <= x < |disk| && LoggedBut(x)
      modifies this`dirty
      ensures Logged() && dirty == old(dirty) + {x}
    {
      dirty := dirty + {x};
    }

    /** either_copyin of `data` into its block, in the buffer. */
    method Store(ip: Ip, addr: nat, off: nat, data: seq<Byte>)
      requires Good(View(), {}) && ip.Holds(View()) && off / BSIZE < MAXFILE && 0 < |data| <= BSIZE - off % BSIZE
      requires addr == DataBlock(View(), ip.inum, off / BSIZE) != 0
      requires Logged()
      modifies this`disk
      ensures sb.inodestart < sb.nmeta <= addr < |disk| && LoggedBut(addr)
      ensures |disk| == |old(disk)| && disk == old(disk)[addr := Overlay(old(disk)[addr], off % BSIZE, data)]
      ensures Good(View(), {}) && ip.Holds(View()) && Wrote(old(View()), View(), ip.inum, off, data)
              && SameInodes(old(View()), View())
      ensures forall k: nat {:trigger RefOf(View(), ip.inum, k)} :: k < SLOTS ==>
              RefOf(View(), ip.inum, k) == RefOf(old(View()), ip.inum, k)
    {
      hide Linked, Marked, RefOf, Wrote, SameInodes, Overlay;
      StoreWrote(View(), ip.inum, off, data);
      StoreGood(View(), addr, Overlay(disk[addr], off % BSIZE, data), {});
      disk := disk[addr := Overlay(disk[addr], off % BSIZE, data)];
      assert View() == Put(old(View()), addr, Overlay(old(disk)[addr], off % BSIZE, data));
    }

    /** bmap in an iteration of writei. */
    method Fetch(ip: Ip, off0: UWord, src: seq<Byte>, tot: nat, ghost fs: Fs, ghost d0: set<nat>, ghost c: Counts)
      returns (addr: UWord, ghost f: Fetched)
      requires ip.Holds(View()) && Writing(fs, View(), d0, dirty, ip.inum, off0, src, tot, c)
      requires tot < |src| && off0 + |src| <= MAXFILE * BSIZE && fs.sb == sb
      requires Logged()
      modifies this`disk, this`nodes, this`owner, this`dirty, ip`addrs
      ensures Logged()
      ensures ip.Holds(View()) && ip.inum < |fs.nodes| && Good(View(), {})
              && Wrote(fs, View(), ip.inum, off0, src[..tot]) && SameInodes(fs, View())
      ensures MappedTo(View(), ip.inum, ip.size) && MappedTo(View(), ip.inum, off0 + tot)
      ensures addr == f.addr == DataBlock(View(), ip.inum, (off0 + tot) / BSIZE)
              && (addr == 0 ==> Full(View()) && !f.isNew)
      ensures f == Fetched(addr, f.bits, f.isNew, old(dirty), old(ip.addrs)[12]) && Fetching(sb, dirty, ip.addrs[12], f)
      ensures f.isNew ==> off0 % BSIZE == 0 || tot > 0
      ensures f.isNew ==> DataBlock(old(View()), ip.inum, (off0 + tot) / BSIZE) == 0 && addr in dirty
      ensures addr != 0 && !f.isNew ==> View() == old(View()) && dirty == old(dirty)
      ensures Ahead(old(View()), old(dirty), View(), dirty, ip.inum, (off0 + tot) / BSIZE + 1)
      ensures |disk| == |old(disk)|
    {
      hide Logged, Good, RefOf, Wrote, SameInodes, Full, DataBlock, MappedTo, Tally, MapBlocks, Writing, NewTable,
           Ahead;
      var off := off0 + tot;
      WritingParts(fs, View(), d0, dirty, ip.inum, off0, src, tot, c);
      ghost var fs1 := View();
      PartialBlockIsMapped(fs1, ip.inum, off);
      ghost var bits;
      addr, bits := Bmap(ip, off / BSIZE);
      WroteNodes(fs1, View(), ip.inum, 0, []);
      AheadOfBmap(fs1, old(dirty), View(), dirty, ip.inum, off / BSIZE, addr, bits);
      f := Fetched(addr, bits, addr != DataBlock(fs1, ip.inum, off / BSIZE), old(dirty), old(ip.addrs)[12]);
      WrittenIdle(fs, fs1, View(), ip.inum, off0, src[..tot]);
      StillMapped(fs1, View(), ip.inum, ip.size, off);
    }

    /** One iteration of writei: the bytes of `src` from `tot` on that go into one block.  The
        source yields `avail` bytes; if that is not enough for this block, those there are have
        been copied into the buffer, and the iteration has `failed`. */
    method WriteOne(ip: Ip, off0: UWord, src: seq<Byte>, avail: nat, tot: nat, ghost fs: Fs, ghost d0: set<nat>,
                    ghost c: Counts) returns (m: nat, failed: bool, ghost but: nat, ghost c': Counts)
      requires ip.Holds(View()) && Writing(fs, View(), d0, dirty, ip.inum, off0, src, tot, c)
      requires tot < |src| && tot <= avail && off0 + |src| <= MAXFILE * BSIZE && fs.sb == sb
      requires Logged()
      modifies this`disk, this`nodes, this`owner, this`dirty, ip`addrs
      ensures ip.Holds(View()) && tot + m <= |src| && tot + m <= avail && LoggedBut(but)
      ensures !failed ==> but == |disk| && Writing(fs, View(), d0, dirty, ip.inum, off0, src, tot + m, c')
      ensures !failed && m == 0 ==> Full(View()) && off0 + tot >= ip.size
      ensures !failed && m > 0 && tot + m < |src| ==> (off0 + tot + m) % BSIZE == 0
      ensures !failed && m > 0 && tot + m < |src| ==>
                Ahead(old(View()), old(dirty), View(), dirty, ip.inum, (off0 + tot + m) / BSIZE)
      ensures failed ==> m == 0 && avail < |src| && Ended(fs, View(), d0, dirty, ip.inum, off0, src, tot, avail)
      ensures failed ==> but == if avail == tot then |disk| else DataBlock(View(), ip.inum, (off0 + tot) / BSIZE)
      ensures failed ==> avail - tot < BSIZE - (off0 + tot) % BSIZE
      ensures failed && avail > tot ==>
                && sb.nmeta <= but < |disk|
                && Spilled(old(View()), old(dirty), View(), dirty, ip.inum, off0 + tot, src[tot..avail], but)
    {
      hide LoggedBut, Good, RefOf, Wrote, SameInodes, Full, DataBlock, MappedTo, Tally, Writing, Fetching, NewTable,
           Ended, Ahead, Spilled;
      WritingParts(fs, View(), d0, dirty, ip.inum, off0, src, tot, c);
      var off := off0 + tot;
      ghost var t0 := fs.nodes[ip.inum].addrs[12];
      ghost var fs1, d1 := View(), dirty;
      var addr;
      ghost var f;
      addr, f := Fetch(ip, off0, src, tot, fs, d0, c);
      failed, but, c' := false, |disk|, c;
      NextBlock(off, |src| - tot);
      if addr == 0 {
        Missing(View(), ip.inum, ip.size, off);
        TallyStop(sb, d0, dirty, off0, |src|, tot, c, t0, ip.addrs[12], f);
        c' := c.(maps := c.maps + f.bits);
        WritingMade(fs, View(), d0, dirty, ip.inum, off0, src, tot, c');
        m := 0;
        return;
      }
      m := if |src| - tot < BSIZE - off % BSIZE then |src| - tot else BSIZE - off % BSIZE;
      TallyMore(sb, d0, dirty, off0, |src|, tot, m, c, t0, ip.addrs[12], f);
      ghost var fs2, d2 := View(), dirty;
      if tot + m > avail {
        if avail > tot {
          Store(ip, addr, off, src[tot..avail]);
          but := addr;
          PartDone(fs, fs1, d1, fs2, d2, View(), ip.inum, off0, src, tot, avail, addr, f.isNew);
        }
        EndedShort(fs, View(), d0, dirty, ip.inum, off0, src, tot, m, avail, CountMore(c, f), addr);
        m, failed := 0, true;
        return;
      }
      Store(ip, addr, off, src[tot..tot + m]);
      MarkDirty(addr);                   // log_write
      but := |disk|;
      c' := CountMore(c, f);
      PieceDone(fs, fs1, d1, fs2, d2, View(), d0, dirty, ip.inum, off0, src, tot, m, c', addr);
    }

    /** writei, from a source of which `avail` bytes can be read.  It writes a prefix of `src` over
        the file from `off` on, extends the file if need be, and touches no other file; only a full
        disk or the source makes it stop early.  If the source fails inside a block, the bytes of that
        block that could be read are in its buffer, but not counted.  They show in the file if and
        only if they replace others within its old size, and they escape the log if and only if they
        replace others of a block that existed and was not in the log. */
    method Writei(ip: Ip, off0: UWord, src: seq<Byte>, avail: nat) returns (r: int, ghost copied: nat)
      requires Consistent(View()) && ip.Holds(View()) && |src| < UINT
      requires Logged()
      modifies this`disk, this`nodes, this`owner, this`dirty, ip
      ensures Consistent(View()) && ip.Holds(View()) && View().sb == old(View()).sb && |nodes| == |old(nodes)|
      ensures r == -1 <==> off0 > old(ip.size) || off0 + |src| > MAXFILE * BSIZE
      ensures r == -1 ==> View() == old(View()) && dirty == old(dirty) && copied == 0
      ensures r != -1 ==>
                && 0 <= r <= copied <= |src| && copied <= avail && off0 <= |File(old(View()), ip.inum)|
                && NowSized(File(View(), ip.inum), File(old(View()), ip.inum), off0, src[..copied], r)
                && (r < |src| && copied != avail ==> Full(View()) && off0 + r >= old(ip.size))
      // what a failing source leaves
      ensures r != -1 ==>
                && (r < copied <==> copied == avail < |src| && avail > 0 && (off0 + avail) % BSIZE != 0)
                && (copied == avail < |src| ==> r == Counted(off0, avail))
                && (0 < r < |src| ==> (off0 + r) % BSIZE == 0)
                && (File(View(), ip.inum) == Splice(File(old(View()), ip.inum), off0, src[..r])
                    <==> avail >= |src| || Agrees(File(old(View()), ip.inum), off0, src, Counted(off0, avail), avail))
      ensures r == -1 || r == copied ==> Logged()
      ensures r != -1 && r < copied ==>
                && (off0 + r) / BSIZE < MAXFILE && LoggedBut(DataBlock(View(), ip.inum, (off0 + r) / BSIZE))
                && (Logged() <==> !Bypasses(old(View()), old(dirty), ip.inum, off0 + r, src[r..avail]))
      ensures OthersSame(old(View()), View(), ip.inum) && ip.head == old(ip.head)
      ensures |dirty - old(dirty)| <= DirtyBound(off0, |src|)
    {
      hide LoggedBut, Linked, Marked, RefOf, Full, Synced, Consistent, File, Splice, DirtyBound, Writing, OthersSame;
      hide Ended, NowSized, DataBlock, Bypasses, Agrees, Counted;
      SameOthers(View(), ip.inum);
      ghost var fs := View();
      var n := |src|;
      FileSize(fs, ip.inum);
      NoneDirty(dirty, off0, n);
      copied := 0;
      if off0 > ip.size || (off0 + n) % UINT < off0 {
        return -1, copied;
      }
      if off0 + n > MAXFILE * BSIZE {
        return -1, copied;
      }
      var tot, failed;
      ghost var but;
      tot, failed, but := WriteBlocks(ip, off0, src, avail);
      copied := if failed then avail else tot;
      EndedSizes(fs, View(), old(dirty), dirty, ip.inum, off0, src, tot, copied);
      ghost var fs3, dirty3 := View(), dirty;
      RecordSize(ip, off0, tot, fs, old(dirty), src, copied, but);
      r := tot;
      Stopped(off0, avail, n, tot, copied, failed);
      FileFate(File(View(), ip.inum), File(fs, ip.inum), off0, src, avail, tot, copied);
      if failed && avail > tot {
        OutcomeStays(fs, old(dirty), start, fs3, dirty3, View(), dirty, ip.inum, off0 + tot, src[tot..avail], but);
        LoggedIf(but);
      }
    }

    /** The loop of writei. */
    method WriteBlocks(ip: Ip, off0: UWord, src: seq<Byte>, avail: nat)
      returns (tot: nat, failed: bool, ghost but: nat)
      requires Consistent(View()) && ip.Holds(View()) && off0 <= ip.size && off0 + |src| <= MAXFILE * BSIZE
      requires Logged()
      modifies this`disk, this`nodes, this`owner, this`dirty, ip`addrs
      ensures ip.Holds(View()) && tot <= |src| && tot <= avail && (failed ==> avail < |src|) && LoggedBut(but)
      ensures 0 < tot < |src| ==> (off0 + tot) % BSIZE == 0
      ensures Ended(old(View()), View(), old(dirty), dirty, ip.inum, off0, src, tot, if failed then avail else tot)
      ensures tot < |src| && !failed ==> Full(View()) && off0 + tot >= ip.size
      ensures failed ==> avail - tot < BSIZE - (off0 + tot) % BSIZE
      ensures !failed || avail == tot ==> but == |disk|
      ensures failed && avail > tot ==>
                && sb.nmeta <= but && (off0 + tot) / BSIZE < MAXFILE
                && but == DataBlock(View(), ip.inum, (off0 + tot) / BSIZE)
                && Outcome(old(View()), old(dirty), start, View(), dirty, ip.inum, off0 + tot, src[tot..avail], but)
    {
      hide LoggedBut, Good, RefOf, Full, Synced, Consistent, File, Splice, DirtyBound, Writing, OthersSame, NewTable;
      hide Ended, DataBlock, Ahead, Spilled, Outcome, Wrote, SameInodes, MappedTo, Tally;
      ghost var fs := View();
      ghost var c := Counts({}, {}, 0);
      but := |disk|;
      WritingStart(fs, dirty, ip.inum, off0, src);
      AheadStart(fs, dirty, ip.inum, off0 / BSIZE);
      var n, more := |src|, true;
      tot, failed := 0, false;
      while tot < n && more
        invariant tot <= n && tot <= avail && ip.Holds(View()) && LoggedBut(but) && (more ==> !failed)
        invariant 0 < tot < n ==> (off0 + tot) % BSIZE == 0
        invariant tot < n && more ==> Ahead(fs, old(dirty), View(), dirty, ip.inum, (off0 + tot) / BSIZE)
        invariant !failed ==> but == |disk| && Writing(fs, View(), old(dirty), dirty, ip.inum, off0, src, tot, c)
        invariant failed ==> avail < n && Ended(fs, View(), old(dirty), dirty, ip.inum, off0, src, tot, avail)
        invariant failed ==> but == if avail == tot then |disk| else DataBlock(View(), ip.inum, (off0 + tot) / BSIZE)
        invariant failed ==> avail - tot < BSIZE - (off0 + tot) % BSIZE
        invariant failed && avail > tot ==>
                    sb.nmeta <= but && (off0 + tot) / BSIZE < MAXFILE &&
                    Outcome(fs, old(dirty), start, View(), dirty, ip.inum, off0 + tot, src[tot..avail], but)
        invariant !more && !failed ==> Full(View()) && off0 + tot >= ip.size
        decreases n - tot, more
      {
        var m;
        ghost var fs1, d1 := View(), dirty;
        LoggedFacts();
        WritingParts(fs, fs1, old(dirty), dirty, ip.inum, off0, src, tot, c);
        m, failed, but, c := WriteOne(ip, off0, src, avail, tot, fs, old(dirty), c);
        if failed && avail > tot {
          SpillOutcome(fs, old(dirty), start, fs1, d1, View(), dirty, ip.inum, off0, src, tot, avail, but);
        }
        if m > 0 && tot + m < n {
          AheadTrans(fs, old(dirty), fs1, d1, View(), dirty, ip.inum, (off0 + tot) / BSIZE, (off0 + tot + m) / BSIZE);
        }
        more := m != 0;
        tot := tot + m;
      }
      if !failed {
        EndedWhole(fs, View(), old(dirty), dirty, ip.inum, off0, src, tot, c);
      }
    }

    lemma LoggedFacts()
      requires Logged()
      ensures |start| == |disk| && forall x {:trigger disk[x]} :: 0 <= x < |disk| && x !in dirty ==> disk[x] == start[x]
    {
    }

    lemma LoggedIf(x: nat)
      requires LoggedBut(x) && x < |disk|
      ensures |start| == |disk| && (Logged() <==> x in dirty || disk[x] == start[x])
    {
    }

    /** The end of writei: the size, if it has grown, and iupdate. */
    method RecordSize(ip: Ip, off0: UWord, tot: nat, ghost fs: Fs, ghost d0: set<nat>, ghost src: seq<Byte>,
                      ghost copied: nat, ghost but: nat)
      requires Consistent(fs) && ip.Holds(View()) && LoggedBut(but)
      requires Ended(fs, View(), d0, dirty, ip.inum, off0, src, tot, copied)
      requires off0 <= ip.size && off0 + |src| <= MAXFILE * BSIZE && fs.sb == sb
      modifies this`disk, this`nodes, this`dirty, ip`size
      ensures Consistent(View()) && ip.Holds(View()) && |nodes| == |old(nodes)| && |disk| == |old(disk)|
      ensures LoggedBut(but) && tot <= copied <= |src| && |fs.nodes| == |nodes| && off0 <= |File(fs, ip.inum)|
      ensures forall x {:trigger disk[x]} :: sb.nmeta <= x < |disk| ==>
              disk[x] == old(disk)[x] && (x in dirty <==> x in old(dirty))
      ensures NowSized(File(View(), ip.inum), File(fs, ip.inum), off0, src[..copied], tot)
      ensures OthersSame(fs, View(), ip.inum) && |dirty - d0| <= DirtyBound(off0, |src|)
      ensures old(Full(View())) ==> Full(View())
      ensures (off0 + tot) / BSIZE < MAXFILE ==>
                DataBlock(View(), ip.inum, (off0 + tot) / BSIZE)
                == DataBlock(old(View()), ip.inum, (off0 + tot) / BSIZE)
    {
      hide LoggedBut, Linked, Marked, RefOf, Full, Synced, Consistent, File, Splice, DirtyBound, OthersSame;
      hide NowSized, DataBlock;
      ghost var fs3, dirty3 := View(), dirty;
      EndedSizes(fs, fs3, d0, dirty, ip.inum, off0, src, tot, copied);
      if off0 + tot > ip.size {
        ip.size := off0 + tot;
      }
      nodes := nodes[ip.inum := nodes[ip.inum].(size := ip.size)];
      SetSizeGood(fs3, ip.inum, ip.size, {});
      SetSizeLinked(fs3, ip.inum, ip.size);
      Iupdate(ip, but);
      WritingEnd(fs, fs3, View(), d0, dirty3, ip.inum, off0, src, tot, copied, ip.size);
    }

    /** The first loop of itrunc: the direct blocks. */
    method FreeDirect(ip: Ip, ghost fs: Fs, ghost d0: set<nat>)
      requires ip.inum < |fs.nodes| && Truncating(fs, View(), ip.inum, 0, d0, dirty)
               && ip.addrs == fs.nodes[ip.inum].addrs
      requires Logged()
      modifies this`disk, this`dirty, ip`addrs
      ensures Logged()
      ensures Truncating(fs, View(), ip.inum, 12, d0, dirty)
      ensures ip.addrs == seq(12, _ => 0) + [fs.nodes[ip.inum].addrs[12]]
    {
      hide Logged, Truncating, RefOf, Rest;
      var i := 0;
      while i < NDIRECT
        invariant Logged() && i <= NDIRECT && Truncating(fs, View(), ip.inum, i, d0, dirty)
                  && |ip.addrs| == 13
        invariant forall k :: 0 <= k < 13 ==> ip.addrs[k] == if k < i then 0 else fs.nodes[ip.inum].addrs[k]
      {
        AddrRef(fs, ip.inum, i);
        if ip.addrs[i] != 0 {
          FreeSlot(ip.addrs[i], fs, ip.inum, i, d0);
          ip.addrs := ip.addrs[i := 0];
        } else {
          SkipSlot(fs, View(), ip.inum, i, d0, dirty);
        }
        i := i + 1;
      }
    }

    /** The second loop of itrunc: the blocks named in the indirect block. */
    method FreeEntries(t: nat, ghost fs: Fs, ghost i: nat, ghost d0: set<nat>)
      requires Good(fs, {}) && i < |fs.nodes| && Truncating(fs, View(), i, 12, d0, dirty)
               && t == fs.nodes[i].addrs[12] != 0
      requires Logged()
      modifies this`disk, this`dirty
      ensures Logged()
      ensures Truncating(fs, View(), i, SLOTS - 1, d0, dirty)
    {
      hide Logged, Good, RefOf, Rest, Word;
      TableIsData(fs, i);
      TableKept(fs, View(), i, 12, d0, dirty);
      hide Truncating;
      var bp := disk[t];
      var j := 0;
      while j < NINDIRECT
        invariant Logged() && j <= NINDIRECT && Truncating(fs, View(), i, 12 + j, d0, dirty)
      {
        EntryRef(fs, i, j);
        if Word(bp, j) != 0 {
          FreeSlot(Word(bp, j), fs, i, 13 + j, d0);
        } else {
          SkipSlot(fs, View(), i, 13 + j, d0, dirty);
        }
        j := j + 1;
      }
    }

    /** Both loops of itrunc and the indirect block itself. */
    method FreeBlocks(ip: Ip, ghost fs: Fs, ghost d0: set<nat>)
      requires Good(fs, {}) && ip.inum < |fs.nodes| && Truncating(fs, View(), ip.inum, 0, d0, dirty)
               && ip.addrs == fs.nodes[ip.inum].addrs
      requires Logged()
      modifies this`disk, this`dirty, ip`addrs
      ensures Logged()
      ensures Truncating(fs, View(), ip.inum, SLOTS, d0, dirty) && ip.addrs == NoAddrs()
    {
      hide Logged, Good, RefOf, Rest, Truncating;
      FreeDirect(ip, fs, d0);
      if ip.addrs[12] != 0 {
        FreeEntries(ip.addrs[12], fs, ip.inum, d0);
        AddrRef(fs, ip.inum, 12);
        FreeSlot(ip.addrs[12], fs, ip.inum, 12, d0);
        ip.addrs := ip.addrs[12 := 0];
      } else {
        NoTable(fs, View(), ip.inum, d0, dirty);
      }
      assert ip.addrs == NoAddrs();
    }

    /** itrunc: the file is empty and its blocks, and no others, are free again.  It has logged the
        inode block and the free-map blocks with a bit of the file. */
    method Itrunc(ip: Ip)
      requires Consistent(View()) && ip.Holds(View())
      requires Logged()
      modifies this`disk, this`nodes, this`owner, this`dirty, ip
      ensures Logged()
      ensures Consistent(View()) && ip.Holds(View()) && File(View(), ip.inum) == []
              && OthersSame(old(View()), View(), ip.inum) && ip.head == old(ip.head)
      ensures FreesOnly(old(View()), View(), Rest(old(View()), ip.inum, 0))
      ensures dirty == old(dirty) + MapOf(sb, Rest(old(View()), ip.inum, 0)) + {IBlock(sb, ip.inum)}
    {
      hide LoggedBut, Consistent, Good, RefOf, ByteAt, Used, File, OthersSame, Kept, SameInodes, Rest, Emptied, NoHoles,
           Truncating, FreesOnly, NoAddrs, MapOf;
      ghost var fs, d0 := View(), dirty;
      CutOff(ip);
      FreeBlocks(ip, fs, d0);
      ip.size := 0;
      TruncEnd(fs, View(), ip.inum, d0, dirty);
      ghost var fs3, dirty3 := View(), dirty;
      assert ip.Holds(fs3);
      Iupdate(ip, |disk|);
      TruncDone(fs, fs3, View(), ip.inum, d0, dirty3);
    }

    /** No inode refers to the blocks of the file any more; they are still marked. */
    ghost method CutOff(ip: Ip)
      requires Consistent(View()) && ip.Holds(View())
      modifies this`nodes, this`owner
      ensures Truncating(old(View()), View(), ip.inum, 0, dirty, dirty) && ip.inum < |old(nodes)|
      ensures ip.addrs == old(nodes)[ip.inum].addrs && Good(old(View()), {})
      ensures |NoAddrs()| == 13 && nodes == old(nodes)[ip.inum := Inode(ip.head, 0, NoAddrs())]
    {
      hide Consistent, RefOf, ByteAt, Used, Rest, Truncating, Linked, Marked;
      ghost var fs := View();
      WholeFacts(fs, ip.inum);
      EmptiedGood(fs, ip.inum);
      EmptiedParts(fs, ip.inum);
      nodes, owner := Emptied(fs, ip.inum).nodes, Emptied(fs, ip.inum).owner;
      TruncStart(fs, View(), ip.inum, dirty);
    }

    /** bfree of the block in slot `k` of a file being truncated. */
    method FreeSlot(b: nat, ghost fs: Fs, ghost i: nat, ghost k: nat, ghost d0: set<nat>)
      requires i < |fs.nodes| && k < SLOTS && b == RefOf(fs, i, k) != 0 && Truncating(fs, View(), i, Rank(k), d0, dirty)
      requires Logged()
      modifies this`disk, this`dirty
      ensures Logged()
      ensures Truncating(fs, View(), i, Rank(k) + 1, d0, dirty)
    {
      hide Logged, Good, RefOf, ByteAt, Used, Rest, Emptied, ClearBit;
      RestStep(fs, i, k);
      ghost var fs1 := View();
      Bfree(b, Rest(fs, i, Rank(k)));
      KeptTrans(Emptied(fs, i), fs1, View());
      MapOfMore(fs, i, Rank(k), b);
    }
  }

  /** balloc has found every block below `n` in use. */
  ghost predicate UsedBelow(fs: Fs, n: nat) {
    forall c: nat {:trigger Used(fs, c)} :: c < n && c < fs.sb.size && BBlock(fs.sb, c) < |fs.disk| ==> Used(fs, c)
  }

  lemma UsedBelowMore(fs: Fs, n: nat)
    ensures UsedBelow(fs, 0)
    ensures UsedBelow(fs, n) && BBlock(fs.sb, n) < |fs.disk| && Used(fs, n) ==> UsedBelow(fs, n + 1)
  {
  }

  lemma UsedBelowUpTo(fs: Fs, base: nat, bi: nat)
    requires UsedBelow(fs, base + bi) && (bi >= BPB || base + bi >= fs.sb.size)
    ensures UsedBelow(fs, base + BPB)
  {
  }

  lemma AllUsed(fs: Fs, n: nat)
    requires UsedBelow(fs, n) && n >= fs.sb.size
    ensures Full(fs)
  {
  }

  lemma MetaOrder(fs: Fs, i: nat)
    requires Linked(fs) && i < |fs.nodes|
    ensures IBlock(fs.sb, i) < fs.sb.bmapstart < fs.sb.nmeta
  {
    IBlockIsMeta(fs, i);
  }

  lemma LowestFree(fs: Fs, b: nat)
    requires UsedBelow(fs, b) && b < fs.sb.size && BBlock(fs.sb, b) < |fs.disk| && !Used(fs, b)
    ensures FirstFree(fs, b)
  {
  }

  lemma MapBlockExists(fs: Fs, pend: set<nat>, b: nat)
    requires Good(fs, pend) && b < fs.sb.size
    ensures BBlock(fs.sb, b) < |fs.disk|
  {
    BBlockIsMeta(fs, b);
  }

  ghost predicate MapBlocks(sb: Super, bits: set<nat>) { forall x :: x in bits ==> sb.bmapstart <= x < sb.nmeta }

  function NewTable(t0: nat, t1: nat): nat { if t0 == 0 && t1 != 0 then 1 else 0 }

  lemma KeptSelf(fs: Fs, i: nat)
    requires i < |fs.nodes|
    ensures Wrote(fs, fs, i, 0, []) && SameInodes(fs, fs)
  {
  }

  lemma KeptRefs(fs: Fs, fs': Fs, i: nat)
    requires Kept(fs, fs') && i < |fs.nodes|
    ensures forall k: nat {:trigger RefOf(fs', i, k)} :: k < SLOTS ==> RefOf(fs', i, k) == RefOf(fs, i, k)
  {
  }

  lemma SizesFit(fs: Fs, fs': Fs, b: nat)
    requires Good(fs, {}) && Good(fs', {} + {b}) && FirstFree(fs, b) && fs'.sb == fs.sb
    ensures b < |fs'.disk| && b < UINT && fs.sb.bmapstart <= BBlock(fs.sb, b) < fs.sb.nmeta
  {
    hide Used;
    BBlockIsMeta(fs, b);
  }

  lemma EntryRef(fs: Fs, i: nat, j: nat)
    requires Good(fs, {}) && i < |fs.nodes| && j < NINDIRECT
    ensures var t := fs.nodes[i].addrs[12];
            if t == 0 then RefOf(fs, i, 13 + j) == 0
            else t < |fs.disk| && RefOf(fs, i, 13 + j) == Word(fs.disk[t], j)
  {
    assert RefOk(fs, i, 12);
    assert fs.nodes[i].addrs[12] in fs.owner ==> OwnerOk(fs, fs.nodes[i].addrs[12]);
  }

  lemma SameInodesTrans(a: Fs, b: Fs, c: Fs)
    requires SameInodes(a, b) && SameInodes(b, c)
    ensures SameInodes(a, c)
  {
    assert forall x {:trigger c.disk[x]} :: a.sb.inodestart <= x < a.sb.bmapstart && x < |a.disk| ==>
           c.disk[x] == b.disk[x];
  }

  lemma WroteNone(a: Fs, b: Fs, c: Fs, i: nat)
    requires Wrote(a, b, i, 0, []) && Wrote(b, c, i, 0, [])
    ensures Wrote(a, c, i, 0, [])
  {
    var none: seq<Byte> := [];
    assert none + none == none;
    WroteMore(a, b, c, i, 0, none, none);
  }

  lemma MapBlocksUnion(sb: Super, b: set<nat>, c: set<nat>)
    requires MapBlocks(sb, b) && MapBlocks(sb, c)
    ensures MapBlocks(sb, b + c) && |b + c| <= |b| + |c|
  {
  }

  /** Every block below `limit` bytes is there. */
  ghost predicate MappedTo(fs: Fs, i: nat, limit: nat)
    requires i < |fs.nodes|
  {
    forall bn: nat {:trigger DataBlock(fs, i, bn)} :: bn < MAXFILE && bn * BSIZE < limit ==> DataBlock(fs, i, bn) != 0
  }

  /** Between two moments of writei nothing has happened to the file's blocks from number `bn` on:
      they are the same, and as many of them have been given to the log. */
  ghost predicate Ahead(fs0: Fs, d0: set<nat>, fs1: Fs, d1: set<nat>, i: nat, bn: nat) {
    && i < |fs0.nodes| && i < |fs1.nodes|
    && forall b: nat {:trigger DataBlock(fs1, i, b)} :: bn <= b < MAXFILE ==>
       DataBlock(fs1, i, b) == DataBlock(fs0, i, b)
       && (DataBlock(fs1, i, b) != 0 ==> (DataBlock(fs1, i, b) in d1 <==> DataBlock(fs1, i, b) in d0))
  }

  lemma AheadOfBmap(fs0: Fs, d0: set<nat>, fs1: Fs, d1: set<nat>, i: nat, bn: nat, r: nat, bits: set<nat>)
    requires Good(fs1, {}) && i < |fs0.nodes| && i < |fs1.nodes| && bn < MAXFILE && r == DataBlock(fs1, i, bn)
    requires d0 <= d1 <= d0 + bits + ({r, fs1.nodes[i].addrs[12]} - {0}) && MapBlocks(fs1.sb, bits)
    requires forall k: nat {:trigger RefOf(fs1, i, k)} :: k < SLOTS && k != 12 && k != SlotFor(bn) ==>
             RefOf(fs1, i, k) == RefOf(fs0, i, k)
    ensures Ahead(fs0, d0, fs1, d1, i, bn + 1)
  {
    hide RefOf, Used;
    AddrRef(fs1, i, 12);
    forall b: nat | bn + 1 <= b < MAXFILE
      ensures DataBlock(fs1, i, b) == DataBlock(fs0, i, b)
      ensures DataBlock(fs1, i, b) != 0 ==> (DataBlock(fs1, i, b) in d1 <==> DataBlock(fs1, i, b) in d0)
    {
      var x := DataBlock(fs1, i, b);
      assert RefOk(fs1, i, SlotFor(b)) && RefOk(fs1, i, SlotFor(bn)) && RefOk(fs1, i, 12);
      if x != 0 {
        assert OwnerOk(fs1, x);
        assert x !in bits && x != r && x != fs1.nodes[i].addrs[12];
      }
    }
  }

  /** A data block is overwritten and given to the log. */
  lemma AheadOfStore(fs0: Fs, d0: set<nat>, fs1: Fs, d1: set<nat>, fs2: Fs, d2: set<nat>, i: nat, bn: nat, addr: nat)
    requires Ahead(fs0, d0, fs1, d1, i, bn + 1) && Good(fs1, {}) && i < |fs2.nodes| && bn < MAXFILE
    requires addr == DataBlock(fs1, i, bn) != 0 && d2 == d1 + {addr}
    requires forall k: nat {:trigger RefOf(fs2, i, k)} :: k < SLOTS ==> RefOf(fs2, i, k) == RefOf(fs1, i, k)
    ensures Ahead(fs0, d0, fs2, d2, i, bn + 1)
  {
    hide RefOf, Used;
    forall b: nat | bn + 1 <= b < MAXFILE
      ensures DataBlock(fs2, i, b) == DataBlock(fs0, i, b)
      ensures DataBlock(fs2, i, b) != 0 ==> (DataBlock(fs2, i, b) in d2 <==> DataBlock(fs2, i, b) in d0)
    {
      assert DataBlock(fs1, i, b) == DataBlock(fs0, i, b);
      assert RefOk(fs1, i, SlotFor(b)) && RefOk(fs1, i, SlotFor(bn));
    }
  }

  /** A source has failed inside block `x`, the one of byte `o` of the file: `part` is in its buffer.
      The block is in the log only if it was before or has just been allocated. */
  ghost predicate Spilled(fs0: Fs, d0: set<nat>, fs1: Fs, d1: set<nat>, i: nat, o: nat, part: seq<Byte>, x: nat) {
    && i < |fs0.nodes| && o / BSIZE < MAXFILE && x < |fs1.disk| == |fs0.disk| && o % BSIZE + |part| <= BSIZE
    && var x0 := DataBlock(fs0, i, o / BSIZE);
       if x0 == 0 then x in d1
       else x == x0 && (x in d1 <==> x in d0) && fs1.disk[x] == Overlay(fs0.disk[x], o % BSIZE, part)
  }

  lemma SpilledMade(fs0: Fs, d0: set<nat>, fs1: Fs, d1: set<nat>, fs2: Fs, i: nat, o: nat, part: seq<Byte>, x: nat,
                    isNew: bool)
    requires i < |fs0.nodes| && o / BSIZE < MAXFILE && x < |fs2.disk| == |fs1.disk| == |fs0.disk|
    requires o % BSIZE + |part| <= BSIZE && fs2.disk[x] == Overlay(fs1.disk[x], o % BSIZE, part)
    requires isNew ==> DataBlock(fs0, i, o / BSIZE) == 0 && x in d1
    requires !isNew ==> fs1 == fs0 && d1 == d0 && x == DataBlock(fs0, i, o / BSIZE) != 0
    ensures Spilled(fs0, d0, fs2, d1, i, o, part, x)
  {
    hide RefOf;
  }

  /** A whole piece has been stored and given to the log. */
  lemma PieceDone(fs: Fs, fs1: Fs, d1: set<nat>, fs2: Fs, d2: set<nat>, fs3: Fs, d0: set<nat>, d3: set<nat>, i: nat,
                  off0: nat, src: seq<Byte>, tot: nat, m: nat, c: Counts, addr: nat)
    requires i < |fs.nodes| && i < |fs1.nodes| && i < |fs2.nodes| && i < |fs3.nodes| && tot + m <= |src| && m > 0
    requires (off0 + tot) / BSIZE < MAXFILE && m <= BSIZE - (off0 + tot) % BSIZE
    requires Good(fs2, {}) && Wrote(fs, fs2, i, off0, src[..tot]) && SameInodes(fs, fs2)
    requires MappedTo(fs2, i, fs3.nodes[i].size) && MappedTo(fs2, i, off0 + tot)
    requires Good(fs3, {}) && Wrote(fs2, fs3, i, off0 + tot, src[tot..tot + m]) && SameInodes(fs2, fs3)
    requires forall k: nat {:trigger RefOf(fs3, i, k)} :: k < SLOTS ==> RefOf(fs3, i, k) == RefOf(fs2, i, k)
    requires Ahead(fs1, d1, fs2, d2, i, (off0 + tot) / BSIZE + 1)
    requires addr == DataBlock(fs2, i, (off0 + tot) / BSIZE) != 0 && d3 == d2 + {addr}
    requires Tally(fs.sb, d0, d3, off0, |src|, tot + m, c, fs.nodes[i].addrs[12], fs3.nodes[i].addrs[12])
    ensures Writing(fs, fs3, d0, d3, i, off0, src, tot + m, c)
    ensures Ahead(fs1, d1, fs3, d3, i, (off0 + tot) / BSIZE + 1)
  {
    hide Good, RefOf, Wrote, SameInodes, DataBlock, MappedTo, Tally, Writing, Ahead;
    WrittenSlice(fs, fs2, fs3, i, off0, src, tot, m);
    NowMapped(fs2, fs3, i, fs3.nodes[i].size, off0 + tot, m);
    AheadOfStore(fs1, d1, fs2, d2, fs3, d3, i, (off0 + tot) / BSIZE, addr);
    WritingMade(fs, fs3, d0, d3, i, off0, src, tot + m, c);
  }

  /** A part of a piece has been stored, and not given to the log. */
  lemma PartDone(fs: Fs, fs1: Fs, d1: set<nat>, fs2: Fs, d2: set<nat>, fs3: Fs, i: nat, off0: nat, src: seq<Byte>,
                 tot: nat, avail: nat, addr: nat, isNew: bool)
    requires i < |fs1.nodes| && i < |fs2.nodes| && i < |fs3.nodes| && tot < avail <= |src|
    requires (off0 + tot) / BSIZE < MAXFILE && avail - tot <= BSIZE - (off0 + tot) % BSIZE
    requires Wrote(fs, fs2, i, off0, src[..tot]) && SameInodes(fs, fs2)
    requires MappedTo(fs2, i, fs3.nodes[i].size) && MappedTo(fs2, i, off0 + tot)
    requires Wrote(fs2, fs3, i, off0 + tot, src[tot..avail]) && SameInodes(fs2, fs3)
    requires forall k: nat {:trigger RefOf(fs3, i, k)} :: k < SLOTS ==> RefOf(fs3, i, k) == RefOf(fs2, i, k)
    requires addr == DataBlock(fs2, i, (off0 + tot) / BSIZE) != 0 && addr < |fs3.disk| == |fs2.disk| == |fs1.disk|
    requires fs3.disk[addr] == Overlay(fs2.disk[addr], (off0 + tot) % BSIZE, src[tot..avail])
    requires isNew ==> DataBlock(fs1, i, (off0 + tot) / BSIZE) == 0 && addr in d2
    requires !isNew ==> fs2 == fs1 && d2 == d1
    ensures Wrote(fs, fs3, i, off0, src[..avail]) && SameInodes(fs, fs3)
    ensures MappedTo(fs3, i, fs3.nodes[i].size) && MappedTo(fs3, i, off0 + avail)
    ensures DataBlock(fs3, i, (off0 + tot) / BSIZE) == addr
    ensures Spilled(fs1, d1, fs3, d2, i, off0 + tot, src[tot..avail], addr)
  {
    hide RefOf, Wrote, SameInodes, DataBlock, MappedTo, Spilled;
    WrittenSlice(fs, fs2, fs3, i, off0, src, tot, avail - tot);
    NowMapped(fs2, fs3, i, fs3.nodes[i].size, off0 + tot, avail - tot);
    SameBlock(fs2, fs3, i, (off0 + tot) / BSIZE);
    SpilledMade(fs1, d1, fs2, d2, fs3, i, off0 + tot, src[tot..avail], addr, isNew);
  }

  /** Bytes `part`, copied over a file at `o` within one block, escape the log: the block exists, is
      not in the log, and holds something else. */
  ghost predicate Bypasses(fs: Fs, d: set<nat>, i: nat, o: nat, part: seq<Byte>)
    requires i < |fs.nodes| && o / BSIZE < MAXFILE
  {
    var x := DataBlock(fs, i, o / BSIZE);
    x != 0 && x !in d && exists k: nat {:trigger part[k]} :: k < |part| && ByteAt(fs, i, o + k) != part[k]
  }

  /** What Spilled means for the log. */
  ghost predicate Outcome(fs: Fs, d: set<nat>, start: seq<Block>, fs1: Fs, d1: set<nat>, i: nat, o: nat,
                          part: seq<Byte>, x: nat)
    requires i < |fs.nodes| && o / BSIZE < MAXFILE
  {
    x < |fs1.disk| == |start| && (x in d1 || fs1.disk[x] == start[x] <==> !Bypasses(fs, d, i, o, part))
  }

  lemma SpillOutcome(fs: Fs, d: set<nat>, start: seq<Block>, fs1: Fs, d1: set<nat>, fs2: Fs, d2: set<nat>, i: nat,
                     off: nat, src: seq<Byte>, tot: nat, avail: nat, x: nat)
    requires tot < avail <= |src| && (off + tot) / BSIZE < MAXFILE
    requires Ahead(fs, d, fs1, d1, i, (off + tot) / BSIZE) && Wrote(fs, fs1, i, off, src[..tot])
    requires Spilled(fs1, d1, fs2, d2, i, off + tot, src[tot..avail], x)
    requires |start| == |fs1.disk|
    requires forall y {:trigger fs1.disk[y]} :: 0 <= y < |fs1.disk| && y !in d1 ==> fs1.disk[y] == start[y]
    ensures Outcome(fs, d, start, fs2, d2, i, off + tot, src[tot..avail], x)
  {
    hide RefOf, ByteAt, Overlay;
    var o, part := off + tot, src[tot..avail];
    var x0 := DataBlock(fs, i, o / BSIZE);
    assert DataBlock(fs1, i, o / BSIZE) == x0;
    if x0 != 0 {
      forall k: nat {:trigger part[k]} | k < |part|
        ensures ByteAt(fs, i, o + k) == fs1.disk[x0][o % BSIZE + k]
      {
        assert ByteAt(fs1, i, o + k) == ByteAt(fs, i, o + k);
        SameByte(fs1, i, o, |part|, k);
      }
      OverlaySame(fs1.disk[x0], o % BSIZE, part);
    }
  }

  lemma SameByte(fs: Fs, i: nat, o: nat, m: nat, k: nat)
    requires i < |fs.nodes| && o / BSIZE < MAXFILE && k < m && o % BSIZE + m <= BSIZE
    requires 0 < DataBlock(fs, i, o / BSIZE) < |fs.disk|
    ensures ByteAt(fs, i, o + k) == fs.disk[DataBlock(fs, i, o / BSIZE)][o % BSIZE + k]
  {
    WithinBlock(o, m, o + k);
    OneByte(fs, i, o + k);
  }

  lemma OverlaySame(blk: Block, at: nat, part: seq<Byte>)
    requires at + |part| <= BSIZE
    ensures Overlay(blk, at, part) == blk <==> forall k: nat {:trigger part[k]} :: k < |part| ==> blk[at + k] == part[k]
  {
    var w := Overlay(blk, at, part);
    forall p: nat | p < BSIZE
      ensures w[p] == if at <= p < at + |part| then part[p - at] else blk[p]
    {
      OverlayAt(blk, at, part, p);
    }
    if w == blk {
      forall k: nat | k < |part|
        ensures blk[at + k] == part[k]
      {
        assert w[at + k] == part[k];
      }
    }
  }

  /** How many of the bytes count when a source fails after `avail`: those before the block it
      failed in. */
  function Counted(off: nat, avail: nat): nat {
    var end := (off + avail) / BSIZE * BSIZE;
    if end > off then end - off else 0
  }

  lemma CountedIs(off: nat, avail: nat, tot: nat)
    requires tot <= avail && avail - tot < BSIZE - (off + tot) % BSIZE && (tot > 0 ==> (off + tot) % BSIZE == 0)
    ensures tot == Counted(off, avail)
    ensures tot < avail <==> avail > 0 && (off + avail) % BSIZE != 0
  {
  }

  /** Why and where the loop of writei has stopped. */
  lemma Stopped(off: nat, avail: nat, n: nat, tot: nat, copied: nat, failed: bool)
    requires tot <= n && tot <= avail && (0 < tot < n ==> (off + tot) % BSIZE == 0)
    requires failed ==> avail < n && avail - tot < BSIZE - (off + tot) % BSIZE
    requires copied == if failed then avail else tot
    ensures tot < copied <==> copied == avail < n && avail > 0 && (off + avail) % BSIZE != 0
    ensures copied == avail < n ==> tot == Counted(off, avail)
    ensures tot <= avail < n ==> tot <= Counted(off, avail)
  {
    if copied == avail < n { CountedIs(off, avail, tot); }
  }

  /** Bytes `a` to `b` of `src` would change nothing of a file they are written over. */
  predicate Agrees(file: seq<Byte>, off: nat, src: seq<Byte>, a: nat, b: nat) {
    forall k: nat {:trigger src[k]} :: a <= k < b && k < |src| && off + k < |file| ==> file[off + k] == src[k]
  }

  /** The file is what it should be if and only if the bytes not counted change nothing of it. */
  lemma RightIfAgrees(now: seq<Byte>, file: seq<Byte>, off: nat, data: seq<Byte>, r: nat)
    requires off <= |file| && r <= |data| && NowSized(now, file, off, data, r)
    ensures now == Splice(file, off, data[..r]) <==> Agrees(file, off, data, r, |data|)
  {
    var w := Splice(file, off, data[..r]);
    assert |now| == |w|;
    if now == w {
      forall k: nat | r <= k < |data| && off + k < |file|
        ensures file[off + k] == data[k]
      {
        assert now[off + k] == data[k] && w[off + k] == file[off + k];
      }
    }
    if Agrees(file, off, data, r, |data|) {
      forall p | 0 <= p < |now|
        ensures now[p] == w[p]
      {
        if off + r <= p < off + |data| { assert data[p - off] == file[off + (p - off)]; }
      }
    }
  }

  /** The same in terms of what is known before the call: a file on which the disk ran full has
      nothing to lose behind that point. */
  lemma FileFate(now: seq<Byte>, file: seq<Byte>, off: nat, src: seq<Byte>, avail: nat, r: nat, copied: nat)
    requires off <= |file| && r <= copied <= |src| && NowSized(now, file, off, src[..copied], r)
    requires r < copied ==> copied == avail < |src|
    requires copied == avail < |src| ==> r == Counted(off, avail)
    requires avail < |src| && copied != avail ==> off + r >= |file| && r <= Counted(off, avail)
    ensures now == Splice(file, off, src[..r])
            <==> avail >= |src| || Agrees(file, off, src, Counted(off, avail), avail)
  {
    hide Splice, Counted, NowSized;
    RightIfAgrees(now, file, off, src[..copied], r);
    assert src[..copied][..r] == src[..r];
    assert Agrees(file, off, src[..copied], r, copied) <==> Agrees(file, off, src, r, copied) by {
      assert forall k: nat :: k < copied ==> src[..copied][k] == src[k];
    }
  }

  lemma OutcomeStays(fs: Fs, d: set<nat>, start: seq<Block>, fs3: Fs, d3: set<nat>, fs4: Fs, d4: set<nat>, i: nat,
                     o: nat, part: seq<Byte>, x: nat)
    requires i < |fs.nodes| && o / BSIZE < MAXFILE && Outcome(fs, d, start, fs3, d3, i, o, part, x)
    requires |fs4.disk| == |fs3.disk| && fs.sb.nmeta <= x && forall y {:trigger fs4.disk[y]} ::
               fs.sb.nmeta <= y < |fs4.disk| ==> fs4.disk[y] == fs3.disk[y] && (y in d4 <==> y in d3)
    ensures x < |fs4.disk| && Outcome(fs, d, start, fs4, d4, i, o, part, x)
  {
    hide Bypasses;
    assert fs4.disk[x] == fs3.disk[x];
  }

  /** The next piece ends at a block boundary or is the last. */
  lemma NextBlock(o: nat, left: nat)
    ensures var m := if left < BSIZE - o % BSIZE then left else BSIZE - o % BSIZE;
            0 < m < left ==> (o + m) % BSIZE == 0 && (o + m) / BSIZE == o / BSIZE + 1
  {
  }

  lemma Missing(fs: Fs, i: nat, size: nat, o: nat)
    requires i < |fs.nodes| && MappedTo(fs, i, size) && o / BSIZE < MAXFILE && DataBlock(fs, i, o / BSIZE) == 0
    ensures o >= size
  {
    hide RefOf;
  }

  lemma AheadStart(fs: Fs, d: set<nat>, i: nat, bn: nat)
    requires i < |fs.nodes|
    ensures Ahead(fs, d, fs, d, i, bn)
  {
  }

  lemma AheadTrans(fs0: Fs, d0: set<nat>, fs1: Fs, d1: set<nat>, fs2: Fs, d2: set<nat>, i: nat, bn: nat, bn': nat)
    requires Ahead(fs0, d0, fs1, d1, i, bn) && Ahead(fs1, d1, fs2, d2, i, bn') && bn <= bn'
    ensures Ahead(fs0, d0, fs2, d2, i, bn')
  {
    hide RefOf;
    forall b: nat | bn' <= b < MAXFILE
      ensures DataBlock(fs2, i, b) == DataBlock(fs0, i, b)
      ensures DataBlock(fs2, i, b) != 0 ==> (DataBlock(fs2, i, b) in d2 <==> DataBlock(fs2, i, b) in d0)
    {
      assert DataBlock(fs1, i, b) == DataBlock(fs0, i, b);
    }
  }

  lemma WrittenNone(fs: Fs, i: nat, off: nat)
    requires i < |fs.nodes|
    ensures Wrote(fs, fs, i, off, []) && SameInodes(fs, fs)
  {
  }

  lemma MappedSoFar(fs: Fs, i: nat, off: nat)
    requires i < |fs.nodes| && NoHoles(fs, i) && off <= fs.nodes[i].size
    ensures MappedTo(fs, i, fs.nodes[i].size) && MappedTo(fs, i, off)
  {
  }

  lemma WrittenMore(a: Fs, b: Fs, c: Fs, i: nat, off: nat, d: seq<Byte>, e: seq<Byte>)
    requires Wrote(a, b, i, off, d) && Wrote(b, c, i, if e == [] then 0 else off + |d|, e) && SameInodes(a, b)
             && SameInodes(b, c)
    ensures Wrote(a, c, i, off, d + e) && SameInodes(a, c)
  {
    hide RefOf, ByteAt;
    assert Wrote(b, c, i, off + |d|, e);
    WroteMore(a, b, c, i, off, d, e);
    SameInodesTrans(a, b, c);
  }

  lemma StillMapped(a: Fs, b: Fs, i: nat, m: nat, n: nat)
    requires Wrote(a, b, i, 0, []) && MappedTo(a, i, m) && MappedTo(a, i, n)
    ensures MappedTo(b, i, m) && MappedTo(b, i, n)
  {
    hide RefOf, ByteAt;
    forall bn: nat | bn < MAXFILE && (bn * BSIZE < m || bn * BSIZE < n)
      ensures DataBlock(b, i, bn) != 0
    {
      assert DataBlock(a, i, bn) != 0;
    }
  }

  /** A block that begins below `limit` is there. */
  lemma PartialBlockIsMapped(fs: Fs, i: nat, limit: nat)
    requires i < |fs.nodes| && MappedTo(fs, i, limit) && limit / BSIZE < MAXFILE
    ensures limit % BSIZE != 0 ==> DataBlock(fs, i, limit / BSIZE) != 0
  {
  }

  lemma NowMapped(a: Fs, b: Fs, i: nat, size: nat, off: nat, m: nat)
    requires i < |a.nodes| && i < |b.nodes| && MappedTo(a, i, size) && MappedTo(a, i, off)
    requires off / BSIZE < MAXFILE && DataBlock(a, i, off / BSIZE) != 0 && m <= BSIZE - off % BSIZE
    requires forall k: nat {:trigger RefOf(b, i, k)} :: k < SLOTS ==> RefOf(b, i, k) == RefOf(a, i, k)
    ensures MappedTo(b, i, size) && MappedTo(b, i, off + m)
  {
    hide RefOf;
    forall bn: nat | bn < MAXFILE && (bn * BSIZE < size || bn * BSIZE < off + m)
      ensures DataBlock(b, i, bn) != 0
    {
      assert DataBlock(a, i, bn) != 0;
    }
  }

  /** `now` is the file after `data` has been copied over it at `off`, of which `r` bytes count for
      its size. */
  ghost predicate NowSized(now: seq<Byte>, file: seq<Byte>, off: nat, data: seq<Byte>, r: nat)
    requires off <= |file| && r <= |data|
  {
    now == Splice(file, off, data)[..if off + r > |file| then off + r else |file|]
  }

  /** The file with its new size is whole again, and says what was written. */
  lemma WriteDone(fs: Fs, fs3: Fs, fs4: Fs, i: nat, off: nat, data: seq<Byte>, r: nat, size: UWord)
    requires Consistent(fs) && Good(fs3, {}) && Good(fs4, {}) && Wrote(fs, fs3, i, off, data) && SameInodes(fs, fs3)
    requires off <= fs.nodes[i].size && r <= |data| && off + r <= MAXFILE * BSIZE
    requires size == if off + r > fs.nodes[i].size then off + r else fs.nodes[i].size
    requires MappedTo(fs3, i, fs.nodes[i].size) && MappedTo(fs3, i, off + r)
    requires Kept(SetSize(fs3, i, size), fs4)
    requires forall j: nat {:trigger Synced(fs4, j)} :: j < |fs4.nodes| ==>
             (Synced(fs4, j) <==> j == i || Synced(SetSize(fs3, i, size), j))
    ensures Consistent(fs4) && off <= |File(fs, i)| && NowSized(File(fs4, i), File(fs, i), off, data, r)
    ensures OthersSame(fs, fs4, i)
  {
    hide RefOf, ByteAt, Linked, Marked, Splice, Synced, Wrote;
    WroteNodes(fs, fs3, i, off, data);
    var fs3' := SetSize(fs3, i, size);
    SetSizeGood(fs3, i, size, {});
    SetSizeLinked(fs3, i, size);
    WholeFacts(fs, i);
    forall j: nat | j < |fs.nodes|
      ensures Whole(fs4, j)
    {
      WholeFacts(fs, j);
      if j != i {
        SameInodesSynced(fs, fs3', j);
      }
      forall bn: nat | bn < MAXFILE && bn * BSIZE < fs4.nodes[j].size
        ensures DataBlock(fs4, j, bn) != 0
      {
        WroteRefs(fs, fs3, i, off, data, j, bn);
        assert DataBlock(fs3', j, bn) == DataBlock(fs3, j, bn);
      }
    }
    forall j: nat | j < |fs.nodes|
      ensures size <= |Splice(File(fs, i), off, data)|
      ensures File(fs4, j) == if j == i then Splice(File(fs, i), off, data)[..size] else File(fs, j)
    {
      FileWritten(fs, fs3, i, off, data, size, j);
      assert File(fs4, j) == File(fs3', j);
    }
  }

  lemma WroteNodes(fs: Fs, fs3: Fs, i: nat, off: nat, data: seq<Byte>)
    requires Wrote(fs, fs3, i, off, data)
    ensures fs3.sb == fs.sb && |fs3.nodes| == |fs.nodes| && i < |fs.nodes| && fs3.nodes[i].size == fs.nodes[i].size
    ensures fs3.nodes[i].head == fs.nodes[i].head && |fs3.disk| == |fs.disk|
    ensures forall j: nat :: j < |fs.nodes| && j != i ==> fs3.nodes[j] == fs.nodes[j]
  {
  }

  lemma WroteRefs(fs: Fs, fs3: Fs, i: nat, off: nat, data: seq<Byte>, j: nat, bn: nat)
    requires Wrote(fs, fs3, i, off, data) && j < |fs.nodes| && bn < MAXFILE
    ensures j != i ==> DataBlock(fs3, j, bn) == DataBlock(fs, j, bn)
  {
    hide RefOf;
  }

  // ----- how many blocks a write dirties -----

  /** Number of blocks that bytes [off, off + n) of a file lie in. */
  function Touched(off: nat, n: nat): nat { if n == 0 then 0 else (off + n - 1) / BSIZE - off / BSIZE + 1 }

  /** Data blocks, one free-map block for each that may be new (the first, if it is written in
      part, is not) and for the indirect block, the indirect block, the inode block. */
  function DirtyBound(off: nat, n: nat): int { 2 * Touched(off, n) - (if off % BSIZE != 0 && n > 0 then 1 else 0) + 3 }

  /** The accounts of writei after `tot` bytes: the blocks dirtied are the data blocks `data`,
      the free-map blocks `maps`, of which `allocs` for data, and the indirect block. */
  datatype Counts = Counts(data: set<nat>, maps: set<nat>, allocs: nat)

  ghost predicate Tally(sb: Super, d0: set<nat>, d: set<nat>, off: nat, n: nat, tot: nat, c: Counts, t0: nat, t: nat) {
    && d <= d0 + c.data + c.maps + ({t} - {0}) && tot <= n
    && |c.maps| <= c.allocs + NewTable(t0, t) && (t0 != 0 ==> t == t0) && MapBlocks(sb, c.maps)
    && |c.data| <= Touched(off, tot)
    && c.allocs <= Touched(off, tot) - (if off % BSIZE != 0 && tot > 0 then 1 else 0)
    && (0 < tot < n ==> (off + tot) % BSIZE == 0)
  }

  lemma TallyStart(sb: Super, d: set<nat>, off: nat, n: nat, t: nat)
    ensures Tally(sb, d, d, off, n, 0, Counts({}, {}, 0), t, t)
  {
  }

  lemma TouchedMore(off: nat, tot: nat, m: nat)
    requires 0 < m <= BSIZE - (off + tot) % BSIZE && (tot > 0 ==> (off + tot) % BSIZE == 0)
    ensures Touched(off, tot + m) == Touched(off, tot) + 1
  {
    if tot > 0 {
      assert (off + tot - 1) / BSIZE == (off + tot) / BSIZE - 1;
    }
    assert (off + tot + m - 1) / BSIZE == (off + tot) / BSIZE;
  }

  /** What one bmap call did: it logged the free-map blocks `bits`, the block it returned and
      perhaps the indirect block; `d` and `t` are the dirty blocks and the indirect block before. */
  datatype Fetched = Fetched(addr: nat, bits: set<nat>, isNew: bool, d: set<nat>, t: nat)

  ghost predicate Fetching(sb: Super, d: set<nat>, t: nat, f: Fetched) {
    && d <= f.d + f.bits + ({f.addr, t} - {0}) && MapBlocks(sb, f.bits)
    && |f.bits| <= NewTable(f.t, t) + (if f.isNew then 1 else 0) && (f.t != 0 ==> t == f.t)
  }

  function CountMore(c: Counts, f: Fetched): Counts {
    Counts(c.data + {f.addr}, c.maps + f.bits, c.allocs + if f.isNew then 1 else 0)
  }

  lemma TallyMore(sb: Super, d0: set<nat>, d: set<nat>, off: nat, n: nat, tot: nat, m: nat, c: Counts, t0: nat,
                  t: nat, f: Fetched)
    requires Tally(sb, d0, f.d, off, n, tot, c, t0, f.t) && tot < n && Fetching(sb, d, t, f) && f.addr != 0
    requires m == if n - tot < BSIZE - (off + tot) % BSIZE then n - tot else BSIZE - (off + tot) % BSIZE
    requires f.isNew ==> off % BSIZE == 0 || tot > 0
    ensures Tally(sb, d0, d + {f.addr}, off, n, tot + m, CountMore(c, f), t0, t)
  {
    hide Touched, MapBlocks, Fetching;
    UpToBoundary(off + tot, n - tot, m);
    TouchedMore(off, tot, m);
    TallyAdd(sb, d0, d, off, n, tot, m, c, t0, t, f);
  }

  lemma TallyAdd(sb: Super, d0: set<nat>, d: set<nat>, off: nat, n: nat, tot: nat, m: nat, c: Counts, t0: nat, t: nat,
                 f: Fetched)
    requires Tally(sb, d0, f.d, off, n, tot, c, t0, f.t) && Fetching(sb, d, t, f) && f.addr != 0
    requires 0 < m <= n - tot && (tot + m < n ==> (off + tot + m) % BSIZE == 0)
             && Touched(off, tot + m) == Touched(off, tot) + 1
    requires f.isNew ==> off % BSIZE == 0 || tot > 0
    ensures Tally(sb, d0, d + {f.addr}, off, n, tot + m, CountMore(c, f), t0, t)
  {
    hide Touched, MapBlocks;
    MapBlocksUnion(sb, c.maps, f.bits);
    DirtyMore(d0, d, c, f, t);
    assert |c.data + {f.addr}| <= |c.data| + 1;
  }

  lemma UpToBoundary(o: nat, left: nat, m: nat)
    requires m == if left < BSIZE - o % BSIZE then left else BSIZE - o % BSIZE
    ensures (left > 0 ==> 0 < m <= BSIZE - o % BSIZE) && (m < left ==> (o + m) % BSIZE == 0)
  {
  }

  lemma DirtyMore(d0: set<nat>, d: set<nat>, c: Counts, f: Fetched, t: nat)
    requires f.d <= d0 + c.data + c.maps + ({f.t} - {0}) && (f.t != 0 ==> t == f.t)
    requires d <= f.d + f.bits + ({f.addr, t} - {0})
    ensures d + {f.addr} <= d0 + (c.data + {f.addr}) + (c.maps + f.bits) + ({t} - {0})
  {
  }

  lemma TallyStop(sb: Super, d0: set<nat>, d: set<nat>, off: nat, n: nat, tot: nat, c: Counts, t0: nat, t: nat,
                  f: Fetched)
    requires Tally(sb, d0, f.d, off, n, tot, c, t0, f.t) && Fetching(sb, d, t, f) && f.addr == 0 && !f.isNew
    ensures Tally(sb, d0, d, off, n, tot, c.(maps := c.maps + f.bits), t0, t)
  {
    MapBlocksUnion(sb, c.maps, f.bits);
  }

  lemma TouchedGrows(off: nat, tot: nat, n: nat)
    requires tot <= n
    ensures Touched(off, 0) == 0 && Touched(off, tot) <= Touched(off, n) && (0 < tot ==> 1 <= Touched(off, tot))
            && (0 < n ==> 1 <= Touched(off, n))
  {
  }

  lemma TallyEnd(sb: Super, d0: set<nat>, d: set<nat>, off: nat, n: nat, tot: nat,
                 c: Counts, t0: nat, t: nat, ib: nat)
    requires Tally(sb, d0, d, off, n, tot, c, t0, t)
    ensures |d + {ib} - d0| <= DirtyBound(off, n)
  {
    hide Touched, MapBlocks;
    TouchedGrows(off, tot, n);
    var all := c.data + c.maps + ({t} - {0}) + {ib};
    SubsetSize(d + {ib} - d0, all);
    SubsetSize({t} - {0}, {t});
    assert |all| <= |c.data| + |c.maps| + 1 + 1;
  }

  lemma NoneDirty(d: set<nat>, off: nat, n: nat)
    ensures |d - d| <= DirtyBound(off, n)
  {
    TouchedGrows(off, 0, n);
    assert d - d == {};
  }

  // ----- the state of writei after `tot` bytes -----

  ghost predicate Writing(fs: Fs, fs': Fs, d0: set<nat>, d: set<nat>, i: nat, off: nat, src: seq<Byte>, tot: nat,
                          c: Counts) {
    && i < |fs.nodes| && tot <= |src| && Good(fs', {}) && Wrote(fs, fs', i, off, src[..tot]) && SameInodes(fs, fs')
    && MappedTo(fs', i, fs'.nodes[i].size) && MappedTo(fs', i, off + tot)
    && Tally(fs.sb, d0, d, off, |src|, tot, c, fs.nodes[i].addrs[12], fs'.nodes[i].addrs[12])
  }

  lemma WritingParts(fs: Fs, fs': Fs, d0: set<nat>, d: set<nat>, i: nat, off: nat, src: seq<Byte>, tot: nat, c: Counts)
    requires Writing(fs, fs', d0, d, i, off, src, tot, c)
    ensures i < |fs.nodes| == |fs'.nodes| && tot <= |src| && Good(fs', {}) && Wrote(fs, fs', i, off, src[..tot])
            && SameInodes(fs, fs')
    ensures MappedTo(fs', i, fs'.nodes[i].size) && MappedTo(fs', i, off + tot)
    ensures Tally(fs.sb, d0, d, off, |src|, tot, c, fs.nodes[i].addrs[12], fs'.nodes[i].addrs[12])
  {
    hide RefOf, ByteAt, Good, Tally, MappedTo, SameInodes;
  }

  lemma WritingMade(fs: Fs, fs': Fs, d0: set<nat>, d: set<nat>, i: nat, off: nat, src: seq<Byte>, tot: nat, c: Counts)
    requires i < |fs.nodes| && i < |fs'.nodes| && tot <= |src| && Good(fs', {}) && Wrote(fs, fs', i, off, src[..tot])
             && SameInodes(fs, fs')
    requires MappedTo(fs', i, fs'.nodes[i].size) && MappedTo(fs', i, off + tot)
    requires Tally(fs.sb, d0, d, off, |src|, tot, c, fs.nodes[i].addrs[12], fs'.nodes[i].addrs[12])
    ensures Writing(fs, fs', d0, d, i, off, src, tot, c)
  {
    hide RefOf, ByteAt, Good, Wrote, Tally, MappedTo, SameInodes;
  }

  lemma WrittenIdle(a: Fs, b: Fs, c: Fs, i: nat, off: nat, d: seq<Byte>)
    requires Wrote(a, b, i, off, d) && Wrote(b, c, i, 0, []) && SameInodes(a, b) && SameInodes(b, c)
    ensures Wrote(a, c, i, off, d) && SameInodes(a, c)
  {
    WrittenMore(a, b, c, i, off, d, []);
    assert d + [] == d;
  }

  lemma WrittenSlice(a: Fs, b: Fs, c: Fs, i: nat, off: nat, src: seq<Byte>, tot: nat, m: nat)
    requires tot + m <= |src| && m > 0 && Wrote(a, b, i, off, src[..tot])
             && Wrote(b, c, i, off + tot, src[tot..tot + m])
    requires SameInodes(a, b) && SameInodes(b, c)
    ensures Wrote(a, c, i, off, src[..tot + m]) && SameInodes(a, c)
  {
    hide Wrote, SameInodes;
    WrittenMore(a, b, c, i, off, src[..tot], src[tot..tot + m]);
    assert src[..tot + m] == src[..tot] + src[tot..tot + m];
  }

  lemma WritingStart(fs: Fs, d: set<nat>, i: nat, off: nat, src: seq<Byte>)
    requires Consistent(fs) && i < |fs.nodes| && off <= fs.nodes[i].size
    ensures Writing(fs, fs, d, d, i, off, src, 0, Counts({}, {}, 0))
  {
    hide RefOf, ByteAt, Good;
    WholeFacts(fs, i);
    WrittenNone(fs, i, off);
    MappedSoFar(fs, i, off);
    TallyStart(fs.sb, d, off, |src|, fs.nodes[i].addrs[12]);
    assert src[..0] == [];
  }

  /** The loop of writei is over: `tot` bytes count for the size, and `copied` are in the buffers. */
  ghost predicate Ended(fs: Fs, fs': Fs, d0: set<nat>, d: set<nat>, i: nat, off: nat, src: seq<Byte>, tot: nat,
                        copied: nat) {
    && i < |fs.nodes| && tot <= copied <= |src| && Good(fs', {}) && Wrote(fs, fs', i, off, src[..copied])
    && SameInodes(fs, fs') && MappedTo(fs', i, fs'.nodes[i].size) && MappedTo(fs', i, off + tot)
    && |d + {IBlock(fs.sb, i)} - d0| <= DirtyBound(off, |src|)
  }

  lemma EndedWhole(fs: Fs, fs': Fs, d0: set<nat>, d: set<nat>, i: nat, off: nat, src: seq<Byte>, tot: nat, c: Counts)
    requires Writing(fs, fs', d0, d, i, off, src, tot, c)
    ensures Ended(fs, fs', d0, d, i, off, src, tot, tot)
  {
    hide Good, Wrote, SameInodes, MappedTo, Tally, DirtyBound;
    WritingParts(fs, fs', d0, d, i, off, src, tot, c);
    TallyEnd(fs.sb, d0, d, off, |src|, tot, c, fs.nodes[i].addrs[12], fs'.nodes[i].addrs[12], IBlock(fs.sb, i));
  }

  /** The source failed in the block that bytes `tot` up to `tot` + `m` were to go into. */
  lemma EndedShort(fs: Fs, fs': Fs, d0: set<nat>, d: set<nat>, i: nat, off: nat, src: seq<Byte>, tot: nat, m: nat,
                   avail: nat, c: Counts, addr: nat)
    requires i < |fs.nodes| && i < |fs'.nodes| && tot <= avail <= |src| && Good(fs', {})
    requires Wrote(fs, fs', i, off, src[..avail]) && SameInodes(fs, fs')
    requires MappedTo(fs', i, fs'.nodes[i].size) && MappedTo(fs', i, off + avail)
    requires Tally(fs.sb, d0, d + {addr}, off, |src|, tot + m, c, fs.nodes[i].addrs[12], fs'.nodes[i].addrs[12])
    ensures Ended(fs, fs', d0, d, i, off, src, tot, avail)
  {
    hide Good, Wrote, SameInodes, Tally, DirtyBound, DataBlock;
    var ib := IBlock(fs.sb, i);
    TallyEnd(fs.sb, d0, d + {addr}, off, |src|, tot + m, c, fs.nodes[i].addrs[12], fs'.nodes[i].addrs[12], ib);
    SubsetSize(d + {ib} - d0, d + {addr} + {ib} - d0);
  }

  lemma SameBlock(a: Fs, b: Fs, i: nat, bn: nat)
    requires i < |a.nodes| && i < |b.nodes| && bn < MAXFILE
    requires forall k: nat {:trigger RefOf(b, i, k)} :: k < SLOTS ==> RefOf(b, i, k) == RefOf(a, i, k)
    ensures DataBlock(b, i, bn) == DataBlock(a, i, bn)
  {
    hide RefOf;
  }

  lemma EndedSizes(fs: Fs, fs': Fs, d0: set<nat>, d: set<nat>, i: nat, off: nat, src: seq<Byte>, tot: nat, copied: nat)
    requires Ended(fs, fs', d0, d, i, off, src, tot, copied)
    ensures Good(fs', {}) && fs'.sb == fs.sb && |fs'.nodes| == |fs.nodes| && fs'.nodes[i].size == fs.nodes[i].size
  {
    hide RefOf, ByteAt, Good;
  }

  lemma WritingEnd(fs: Fs, fs3: Fs, fs4: Fs, d0: set<nat>, d: set<nat>, i: nat, off: nat, src: seq<Byte>, tot: nat,
                   copied: nat, size: UWord)
    requires Consistent(fs) && Ended(fs, fs3, d0, d, i, off, src, tot, copied) && i < |fs3.nodes|
    requires off <= fs.nodes[i].size && off + |src| <= MAXFILE * BSIZE
    requires size == if off + tot > fs.nodes[i].size then off + tot else fs.nodes[i].size
    requires Good(fs4, {}) && Kept(SetSize(fs3, i, size), fs4)
    requires forall j: nat {:trigger Synced(fs4, j)} :: j < |fs4.nodes| ==>
             (Synced(fs4, j) <==> j == i || Synced(SetSize(fs3, i, size), j))
    ensures fs4.sb == fs.sb && Consistent(fs4)
    ensures off <= |File(fs, i)| && NowSized(File(fs4, i), File(fs, i), off, src[..copied], tot)
    ensures OthersSame(fs, fs4, i)
    ensures |d + {IBlock(fs.sb, i)} - d0| <= DirtyBound(off, |src|)
    ensures Full(fs3) ==> Full(fs4)
    ensures forall bn: nat {:trigger DataBlock(fs4, i, bn)} :: bn < MAXFILE ==>
            DataBlock(fs4, i, bn) == DataBlock(fs3, i, bn)
  {
    hide RefOf, ByteAt, Linked, Marked, Wrote, SameInodes, MappedTo, Consistent, Splice, File, Synced, DirtyBound,
         Full, OthersSame, NowSized;
    EndedSizes(fs, fs3, d0, d, i, off, src, tot, copied);
    WriteDone(fs, fs3, fs4, i, off, src[..copied], tot, size);
    StaysFull(fs3, fs4, i, size);
    SetSizeGood(fs3, i, size, {});
    SetSizeLinked(fs3, i, size);
  }

  /** The same blocks are marked, as the same blocks are referred to. */
  lemma StaysFull(fs3: Fs, fs4: Fs, i: nat, size: UWord)
    requires Good(fs3, {}) && Good(fs4, {}) && i < |fs3.nodes| && Kept(SetSize(fs3, i, size), fs4)
    ensures Full(fs3) ==> Full(fs4)
  {
    hide RefOf, ByteAt, Used;
    SetSizeGood(fs3, i, size, {});
    SetSizeLinked(fs3, i, size);
    forall c: nat | Full(fs3) && c < fs3.sb.size && c in fs3.owner
      ensures c in fs4.owner
    {
      assert OwnerOk(fs3, c);
      var (j, k) := fs3.owner[c];
      assert RefOf(fs4, j, k) == RefOf(SetSize(fs3, i, size), j, k);
      assert RefOk(fs4, j, k);
    }
    forall c: nat | Full(fs3) && c < fs3.sb.size && BBlock(fs3.sb, c) < |fs4.disk|
      ensures Used(fs4, c)
    {
      assert Used(fs3, c);
    }
  }

  // ----- the state of itrunc when the slots before `rank` have been visited -----

  /** The free-map blocks that hold the bits of `bs`. */
  function MapOf(sb: Super, bs: set<nat>): set<nat> { set b | b in bs :: BBlock(sb, b) }

  /** itrunc alone fits an operation if and only if the bits of the file are spread over fewer than
      MAXOPBLOCKS blocks of the free map, as they are on every disk of at most 9 * 8192 blocks. */
  lemma TruncFits(fs: Fs, i: nat)
    requires Linked(fs) && i < |fs.nodes|
    ensures var marks := MapOf(fs.sb, Rest(fs, i, 0));
            && (|marks + {IBlock(fs.sb, i)}| <= MAXOPBLOCKS <==> |marks| < MAXOPBLOCKS)
            && |marks| <= (fs.sb.size - 1) / BPB + 1
            && (fs.sb.size <= (MAXOPBLOCKS - 1) * BPB ==> |marks| < MAXOPBLOCKS)
  {
    hide RefOf;
    var marks, all := MapOf(fs.sb, Rest(fs, i, 0)), Range(fs.sb.bmapstart, (fs.sb.size - 1) / BPB + 1);
    IBlockIsMeta(fs, i);
    forall b | b in Rest(fs, i, 0)
      ensures BBlock(fs.sb, b) in all
    {
      assert OwnerOk(fs, b);
      assert b / BPB < (fs.sb.size - 1) / BPB + 1;
    }
    SubsetSize(marks, all);
  }

  function Range(a: nat, n: nat): (s: set<nat>)
    ensures |s| == n && forall x: nat {:trigger x in s} :: x in s <==> a <= x < a + n
  {
    if n == 0 then {} else Range(a, n - 1) + {a + n - 1}
  }

  ghost predicate Truncating(fs: Fs, fs': Fs, i: nat, rank: nat, d0: set<nat>, d: set<nat>) {
    && Linked(fs) && i < |fs.nodes| && Good(fs', Rest(fs, i, rank)) && Kept(Emptied(fs, i), fs')
    && fs'.owner == Emptied(fs, i).owner
    && SameInodes(fs, fs')
    && (forall x {:trigger fs'.disk[x]} :: fs.sb.nmeta <= x < |fs.disk| ==> fs'.disk[x] == fs.disk[x])
    && d == d0 + MapOf(fs.sb, Rest(fs, i, 0) - Rest(fs, i, rank))
  }

  lemma TruncStart(fs: Fs, fs': Fs, i: nat, d: set<nat>)
    requires Good(fs, {}) && i < |fs.nodes| && fs' == Emptied(fs, i) && Good(fs', Rest(fs, i, 0))
    ensures Truncating(fs, fs', i, 0, d, d)
  {
    hide RefOf, ByteAt;
  }

  lemma MapOfMore(fs: Fs, i: nat, rank: nat, b: nat)
    requires b in Rest(fs, i, rank)
    ensures MapOf(fs.sb, Rest(fs, i, 0) - (Rest(fs, i, rank) - {b}))
            == MapOf(fs.sb, Rest(fs, i, 0) - Rest(fs, i, rank)) + {BBlock(fs.sb, b)}
  {
    var all, rest := Rest(fs, i, 0), Rest(fs, i, rank);
    assert b in all && all - (rest - {b}) == (all - rest) + {b};
  }

  lemma SkipSlot(fs: Fs, fs': Fs, i: nat, k: nat, d0: set<nat>, d: set<nat>)
    requires k < SLOTS && i < |fs.nodes| && RefOf(fs, i, k) == 0 && Truncating(fs, fs', i, Rank(k), d0, d)
    ensures Truncating(fs, fs', i, Rank(k) + 1, d0, d)
  {
    hide RefOf, ByteAt, Used;
    RestStep(fs, i, k);
    assert 0 !in fs.owner by { assert 0 in fs.owner ==> OwnerOk(fs, 0); }
    assert Rest(fs, i, Rank(k)) - {0} == Rest(fs, i, Rank(k));
  }

  lemma NoTable(fs: Fs, fs': Fs, i: nat, d0: set<nat>, d: set<nat>)
    requires i < |fs.nodes| && fs.nodes[i].addrs[12] == 0 && Truncating(fs, fs', i, 12, d0, d)
    ensures Truncating(fs, fs', i, SLOTS, d0, d)
  {
    assert forall b :: b in fs.owner ==> OwnerOk(fs, b);
    assert Rest(fs, i, 12) == {};
    RestNone(fs, i);
  }

  lemma TruncEnd(fs: Fs, fs': Fs, i: nat, d0: set<nat>, d: set<nat>)
    requires Truncating(fs, fs', i, SLOTS, d0, d)
    ensures Good(fs', {}) && fs'.nodes == Emptied(fs, i).nodes && fs'.owner == Emptied(fs, i).owner && fs'.sb == fs.sb
    ensures |fs'.disk| == |fs.disk| && d == d0 + MapOf(fs.sb, Rest(fs, i, 0))
  {
    hide RefOf, ByteAt, Used;
    RestNone(fs, i);
    assert Rest(fs, i, 0) - {} == Rest(fs, i, 0);
  }

  lemma EmptiedParts(fs: Fs, i: nat)
    requires i < |fs.nodes|
    ensures Emptied(fs, i) == fs.(nodes := Emptied(fs, i).nodes, owner := Emptied(fs, i).owner)
    ensures |NoAddrs()| == 13 && Emptied(fs, i).nodes == fs.nodes[i := Inode(fs.nodes[i].head, 0, NoAddrs())]
  {
  }

  lemma TableKept(fs: Fs, fs': Fs, i: nat, rank: nat, d0: set<nat>, d: set<nat>)
    requires Truncating(fs, fs', i, rank, d0, d) && fs.sb.nmeta <= fs.nodes[i].addrs[12] < |fs.disk|
    ensures |fs'.disk| == |fs.disk| && fs'.disk[fs.nodes[i].addrs[12]] == fs.disk[fs.nodes[i].addrs[12]]
  {
  }

  lemma TableIsData(fs: Fs, i: nat)
    requires Good(fs, {}) && i < |fs.nodes| && fs.nodes[i].addrs[12] != 0
    ensures fs.sb.nmeta <= fs.nodes[i].addrs[12] < |fs.disk|
  {
    hide Used;
    assert RefOk(fs, i, 12);
    assert OwnerOk(fs, fs.nodes[i].addrs[12]);
  }

  lemma TruncDone(fs: Fs, fs3: Fs, fs4: Fs, i: nat, d0: set<nat>, d: set<nat>)
    requires Consistent(fs) && Truncating(fs, fs3, i, SLOTS, d0, d) && Good(fs4, {}) && Kept(fs3, fs4)
             && fs4.owner == fs3.owner
    requires forall j: nat {:trigger Synced(fs4, j)} :: j < |fs4.nodes| ==>
             (Synced(fs4, j) <==> j == i || Synced(fs3, j))
    ensures Consistent(fs4) && File(fs4, i) == [] && OthersSame(fs, fs4, i)
    ensures FreesOnly(fs, fs4, Rest(fs, i, 0))
  {
    hide Used, Good, SameInodes, Synced, RefOf, ByteAt;
    EmptiedFiles(fs, i);
    TruncEnd(fs, fs3, i, d0, d);
    KeptTrans(Emptied(fs, i), fs3, fs4);
    forall j: nat | j < |fs.nodes|
      ensures Whole(fs4, j)
    {
      WholeFacts(fs, j);
      if j != i { SameInodesSynced(fs, fs3, j); }
      assert NoHoles(Emptied(fs, i), j);
      assert forall bn: nat {:trigger DataBlock(fs4, j, bn)} :: bn < MAXFILE && bn * BSIZE < fs4.nodes[j].size ==>
        DataBlock(fs4, j, bn) == DataBlock(Emptied(fs, i), j, bn) != 0;
    }
    forall j: nat | j < |fs.nodes|
      ensures File(fs4, j) == File(Emptied(fs, i), j)
    {
    }
    MarksLeft(fs, fs4, i);
  }

  lemma EmptiedFiles(fs: Fs, i: nat)
    requires Consistent(fs) && i < |fs.nodes|
    ensures File(Emptied(fs, i), i) == [] && OthersSame(fs, Emptied(fs, i), i)
    ensures forall j: nat {:trigger NoHoles(Emptied(fs, i), j)} :: j < |fs.nodes| ==> NoHoles(Emptied(fs, i), j)
  {
    hide Used, SameInodes, Synced, RefOf, ByteAt;
    EmptiedGood(fs, i);
    forall j: nat | j < |fs.nodes|
      ensures NoHoles(Emptied(fs, i), j)
    {
      WholeFacts(fs, j);
      forall bn: nat | bn < MAXFILE && bn * BSIZE < Emptied(fs, i).nodes[j].size
        ensures DataBlock(Emptied(fs, i), j, bn) != 0
      {
        assert DataBlock(fs, j, bn) != 0;
      }
    }
    forall j: nat | j < |fs.nodes| && j != i
      ensures File(Emptied(fs, i), j) == File(fs, j)
    {
    }
  }

  lemma MarksLeft(fs: Fs, fs4: Fs, i: nat)
    requires Good(fs, {}) && Good(fs4, {}) && i < |fs.nodes| && fs4.owner == Emptied(fs, i).owner && fs4.sb == fs.sb
             && |fs4.disk| == |fs.disk|
    ensures FreesOnly(fs, fs4, Rest(fs, i, 0))
  {
    hide Used, RefOf;
    forall b: nat | b < fs.sb.size && b in fs.owner
      ensures fs.sb.nmeta <= b
    {
      assert OwnerOk(fs, b);
    }
    forall b: nat | b < fs.sb.size && BBlock(fs.sb, b) < |fs.disk|
      ensures Used(fs4, b) <==> Used(fs, b) && b !in Rest(fs, i, 0)
    {
      assert Used(fs, b) == Used(fs, b);
    }
  }

  lemma WholeFacts(fs: Fs, i: nat)
    requires Consistent(fs) && i < |fs.nodes|
    ensures Good(fs, {}) && NoHoles(fs, i) && Synced(fs, i)
  {
    assert Whole(fs, i);
  }

  lemma FileSize(fs: Fs, i: nat)
    requires i < |fs.nodes|
    ensures |File(fs, i)| == fs.nodes[i].size
  {
  }

  lemma MappedAt(fs: Fs, i: nat, o: nat)
    requires Good(fs, {}) && i < |fs.nodes| && NoHoles(fs, i) && o < fs.nodes[i].size
    ensures o / BSIZE < MAXFILE && 0 < DataBlock(fs, i, o / BSIZE) < |fs.disk|
  {
    hide RefOf;
    var b := DataBlock(fs, i, o / BSIZE);
    assert RefOk(fs, i, SlotFor(o / BSIZE));
    assert b in fs.owner ==> OwnerOk(fs, b);
  }

  lemma Adjacent(s: seq<Byte>, a: nat, b: nat, c: nat)
    requires a <= b <= c <= |s|
    ensures s[a..c] == s[a..b] + s[b..c]
  {
  }

  lemma PartOf(s: seq<Byte>, off: nat, want: nat, tot: nat, piece: seq<Byte>, part: nat)
    requires off + want <= |s| && tot + |piece| <= want && piece == s[off + tot..off + tot + |piece|] && part <= |piece|
    ensures s[off..off + tot] + piece[..part] == s[off..off + want][..tot + part]
  {
    assert piece[..part] == s[off + tot..off + tot + part];
    Adjacent(s, off, off + tot, off + tot + part);
    assert s[off..off + want][..tot + part] == s[off..off + tot + part];
  }

  /** A piece of a data block is a piece of the file. */
  lemma Slice(fs: Fs, i: nat, o: nat, m: nat)
    requires i < |fs.nodes| && o / BSIZE < MAXFILE && 0 < DataBlock(fs, i, o / BSIZE) < |fs.disk|
    requires m <= BSIZE - o % BSIZE && o + m <= fs.nodes[i].size
    ensures File(fs, i)[o..o + m] == fs.disk[DataBlock(fs, i, o / BSIZE)][o % BSIZE..o % BSIZE + m]
  {
    hide RefOf;
    hide ByteAt;
    var part, piece := File(fs, i)[o..o + m], fs.disk[DataBlock(fs, i, o / BSIZE)][o % BSIZE..o % BSIZE + m];
    forall k: nat | k < m
      ensures part[k] == piece[k]
    {
      WithinBlock(o, m, o + k);
      OneByte(fs, i, o + k);
    }
  }

  lemma AddrRef(fs: Fs, i: nat, k: nat)
    requires i < |fs.nodes| && k <= 12
    ensures RefOf(fs, i, k) == fs.nodes[i].addrs[k]
  {
  }

  /** Blocks base, base + 1, ... share a free-map block. */
  lemma SameMapBlock(fs: Fs, base: nat, bi: nat)
    requires base % BPB == 0 && bi < BPB
    ensures BBlock(fs.sb, base + bi) == BBlock(fs.sb, base) && (base + bi) % BPB == bi
    ensures BBlock(fs.sb, base) < |fs.disk| ==> Used(fs, base + bi) == Bit(fs.disk[BBlock(fs.sb, base)], bi)
  {
    assert base == base / BPB * BPB;
  }
}
