/** file.c: filewrite cuts a write into transactions that fit the log. */
module FileWrite {
  import opened Common
  import opened FsDisk
  import opened FsModel
  import opened FsFiles
  import opened FileSystem

  /** The largest piece filewrite hands to writei. */
  const CHUNK: nat := (MAXOPBLOCKS - 1 - 1 - 2) / 2 * BSIZE

  /** Whatever the offset and the size of the disk, one piece dirties no more blocks than an
      operation may log, and that bound would not hold of a piece one block larger. */
  lemma ChunkFits(off: nat, n: nat)
    requires n <= CHUNK
    ensures DirtyBound(off, n) <= MAXOPBLOCKS
    ensures off % BSIZE != 0 && n == CHUNK ==> DirtyBound(off, n) == MAXOPBLOCKS
    ensures DirtyBound(off, CHUNK + BSIZE) > MAXOPBLOCKS
  {
  }

  lemma SpliceTwice(s: seq<Byte>, off: nat, a: seq<Byte>, b: seq<Byte>)
    requires off <= |s|
    ensures off + |a| <= |Splice(s, off, a)|
    ensures Splice(Splice(s, off, a), off + |a|, b) == Splice(s, off, a + b)
  {
  }

  /** What is written is read back, and the rest of the file is as it was. */
  lemma SpliceReads(s: seq<Byte>, off: nat, data: seq<Byte>)
    requires off <= |s|
    ensures var w := Splice(s, off, data);
            && |w| == (if off + |data| > |s| then off + |data| else |s|)
            && w[off..off + |data|] == data && w[..off] == s[..off]
            && (off + |data| <= |s| ==> w[off + |data|..] == s[off + |data|..])
  {
  }

  class OpenFile {
    const ip: Ip
    const writable: bool
    var off: UWord

    constructor (ip: Ip, writable: bool)
      ensures this.ip == ip && this.writable == writable && off == 0
    {
      this.ip, this.writable, off := ip, writable, 0;
    }
  }

  /** begin_op, writei, end_op; `used` is the number of blocks logged in between.  Of `piece`,
      `avail` bytes can be read. */
  method Transaction(fs: FileSystem, f: OpenFile, piece: seq<Byte>, avail: nat)
    returns (r: int, ghost copied: nat, ghost used: nat)
    requires Consistent(fs.View()) && f.ip.Holds(fs.View()) && |piece| <= CHUNK
    modifies fs, f.ip, f
    ensures Consistent(fs.View()) && f.ip.Holds(fs.View()) && OthersSame(old(fs.View()), fs.View(), f.ip.inum)
    ensures f.ip.head == old(f.ip.head)
    ensures -1 <= r <= |piece| && f.off == old(f.off) + (if r > 0 then r else 0)
    ensures r == -1 <==> old(f.off) > |old(File(fs.View(), f.ip.inum))| || old(f.off) + |piece| > MAXFILE * BSIZE
    ensures r == -1 ==> File(fs.View(), f.ip.inum) == old(File(fs.View(), f.ip.inum)) && copied == 0
    ensures r >= 0 ==>
              && r <= copied <= |piece| && copied <= avail && old(f.off) <= |old(File(fs.View(), f.ip.inum))|
              && NowSized(File(fs.View(), f.ip.inum), old(File(fs.View(), f.ip.inum)), old(f.off), piece[..copied], r)
              && (r < |piece| && copied != avail ==> Full(fs.View()) && old(f.off) + r >= old(f.ip.size))
              && (r < copied <==> copied == avail < |piece| && avail > 0 && (old(f.off) + avail) % BSIZE != 0)
              && (copied == avail < |piece| ==> r == Counted(old(f.off), avail))
              && (0 < r < |piece| ==> (old(f.off) + r) % BSIZE == 0)
              && (File(fs.View(), f.ip.inum) == Splice(old(File(fs.View(), f.ip.inum)), old(f.off), piece[..r])
                  <==> avail >= |piece| || Agrees(old(File(fs.View(), f.ip.inum)), old(f.off), piece,
                                                  Counted(old(f.off), avail), avail))
    ensures r == -1 || r == copied ==> fs.Logged()
    ensures r != -1 && r < copied ==>
              && (old(f.off) + r) / BSIZE < MAXFILE
              && (fs.Logged() <==> !Bypasses(old(fs.View()), {}, f.ip.inum, old(f.off) + r, piece[r..avail]))
    ensures fs.start == old(fs.disk) && used == |fs.dirty| <= MAXOPBLOCKS
  {
    hide Consistent, File, Full, DirtyBound, OthersSame, NowSized, Splice, Agrees, Bypasses, Counted;
    FileSize(fs.View(), f.ip.inum);
    fs.Begin();
    r, copied := fs.Writei(f.ip, f.off, piece, avail);
    ChunkFits(f.off, |piece|);
    assert fs.dirty - {} == fs.dirty;
    used := |fs.dirty|;
    if r > 0 {
      f.off := f.off + r;
    }
  }

  /** When all that has been copied counts, the data is spliced into the file. */
  lemma AllCopied(now: seq<Byte>, file: seq<Byte>, off: nat, data: seq<Byte>)
    requires off <= |file| && NowSized(now, file, off, data, |data|)
    ensures now == Splice(file, off, data)
  {
  }

  /** The file after `copied` bytes of `src` have been copied over it from `off` on, of which `done`
      count as written. */
  ghost predicate Progress(file: seq<Byte>, off: nat, src: seq<Byte>, done: nat, copied: nat, now: seq<Byte>) {
    && done <= copied <= |src|
    && if off <= |file| then NowSized(now, file, off, src[..copied], done) else copied == 0 && now == file
  }

  lemma ProgressMore(file: seq<Byte>, off: nat, src: seq<Byte>, done: nat, piece: nat, r: nat, c: nat, now: seq<Byte>,
                     now': seq<Byte>)
    requires Progress(file, off, src, done, done, now) && done + piece <= |src| && r <= c <= piece && off <= |file|
    requires off + done <= |now| && NowSized(now', now, off + done, src[done..done + piece][..c], r)
    ensures Progress(file, off, src, done + r, done + c, now')
  {
    hide Splice;
    var a, b := src[..done], src[done..done + piece][..c];
    SpliceReads(file, off, a);
    SpliceReads(file, off, a + b);
    SpliceTwice(file, off, a, b);
    assert now == Splice(file, off, a);
    assert a + b == src[..done + c];
  }

  /** The inode case of filewrite, for data of which `avail` bytes can be read.  `peak` is the
      largest number of blocks any of its transactions has logged. */
  method Filewrite(fs: FileSystem, f: OpenFile, src: seq<Byte>, avail: nat)
    returns (ret: int, ghost copied: nat, ghost peak: nat)
    requires Consistent(fs.View()) && f.ip.Holds(fs.View()) && |src| < 0x8000_0000
    modifies fs, f.ip, f
    ensures Consistent(fs.View()) && f.ip.Holds(fs.View()) && OthersSame(old(fs.View()), fs.View(), f.ip.inum)
    ensures f.ip.head == old(f.ip.head)
    ensures !f.writable ==> ret == -1 && fs.View() == old(fs.View()) && f.off == old(f.off)
    ensures old(f.off) <= f.off && (f.writable ==> ret == if f.off == old(f.off) + |src| then |src| else -1)
    ensures Progress(old(File(fs.View(), f.ip.inum)), old(f.off), src, f.off - old(f.off), copied,
                     File(fs.View(), f.ip.inum))
    ensures f.writable && ret == -1 ==>
              || Full(fs.View()) || old(f.off) > old(f.ip.size) || old(f.off) + |src| > MAXFILE * BSIZE
              || copied == avail < |src|
    // what a failing source leaves
    ensures copied <= avail && (copied == avail < |src| ==> f.off - old(f.off) == CountedInChunks(old(f.off), avail))
    ensures f.off - old(f.off) < copied
            <==> copied == avail < |src| && (old(f.off) + avail) % BSIZE != 0 && avail % CHUNK != 0
    ensures f.writable && old(f.off) <= |old(File(fs.View(), f.ip.inum))| && old(f.off) + |src| <= MAXFILE * BSIZE ==>
              (File(fs.View(), f.ip.inum)
               == Splice(old(File(fs.View(), f.ip.inum)), old(f.off), src[..f.off - old(f.off)])
               <==> avail >= |src| || Agrees(old(File(fs.View(), f.ip.inum)), old(f.off), src,
                                             CountedInChunks(old(f.off), avail), avail))
    ensures peak <= MAXOPBLOCKS
  {
    hide Consistent, File, Full, OthersSame, Progress, NowSized, Splice, Agrees, Bypasses, Counted, CountedInChunks,
         Chunks;
    ghost var file, view0, off0 := File(fs.View(), f.ip.inum), fs.View(), f.off;
    FileSize(view0, f.ip.inum);
    SameOthers(view0, f.ip.inum);
    ChunksStart(file, off0, src, avail);
    copied, peak := 0, 0;
    if !f.writable {
      return -1, copied, peak;
    }
    var n, i := |src|, 0;
    var ok := true;
    while i < n && ok
      invariant 0 <= i <= n && i <= avail && off0 + i <= f.off && (ok ==> f.off == off0 + i)
      invariant Consistent(fs.View()) && f.ip.Holds(fs.View()) && OthersSame(view0, fs.View(), f.ip.inum)
      invariant f.ip.head == old(f.ip.head)
      invariant Chunks(file, off0, src, avail, i, f.off - off0, copied, ok, File(fs.View(), f.ip.inum))
      invariant !ok ==> Full(fs.View()) || off0 > |file| || off0 + n > MAXFILE * BSIZE || copied == avail < n
      invariant peak <= MAXOPBLOCKS
      decreases n - i, ok
    {
      var n1 := if n - i > CHUNK then CHUNK else n - i;
      ghost var view := fs.View();
      var r;
      ghost var c, used;
      r, c, used := Transaction(fs, f, src[i..i + n1], avail - i);
      FileSize(view, f.ip.inum);
      ChunkDone(file, off0, src, avail, i, copied, n1, r, c, File(view, f.ip.inum), File(fs.View(), f.ip.inum));
      peak, copied := if used > peak then used else peak, i + c;
      OthersTrans(view0, view, fs.View(), f.ip.inum);
      ok := r == n1;
      if ok {
        i := i + r;
      }
    }
    ret := if i == n then n else -1;
    ChunksEnd(file, off0, src, avail, i, f.off - off0, copied, ok, File(fs.View(), f.ip.inum));
  }

  /** The same over all transactions of a filewrite. */
  function CountedInChunks(off: nat, avail: nat): nat {
    var i := avail / CHUNK * CHUNK;
    i + Counted(off + i, avail - i)
  }

  /** Where a filewrite of `n` bytes has stopped. */
  predicate Ended(off: nat, n: nat, avail: nat, done: nat, copied: nat) {
    && (done < copied <==> copied == avail < n && (off + avail) % BSIZE != 0 && avail % CHUNK != 0)
    && (copied == avail < n ==> done == CountedInChunks(off, avail))
    && (avail < n ==> done <= CountedInChunks(off, avail))
  }

  lemma AtMostCounted(off: nat, avail: nat, r: nat)
    requires r <= avail && (r == 0 || (off + r) % BSIZE == 0)
    ensures r <= Counted(off, avail)
  {
  }

  lemma ChunkEnds(off: nat, n: nat, avail: nat, i: nat, n1: nat, r: nat, c: nat)
    requires i < n && i <= avail && i % CHUNK == 0 && n1 == if n - i > CHUNK then CHUNK else n - i
    requires r <= c <= n1 && c <= avail - i && r < n1
    requires r < c <==> c == avail - i < n1 && avail - i > 0 && (off + i + (avail - i)) % BSIZE != 0
    requires c == avail - i < n1 ==> r == Counted(off + i, avail - i)
    requires r == 0 || (off + i + r) % BSIZE == 0
    ensures Ended(off, n, avail, i + r, i + c)
  {
    hide Counted;
    WholeChunks(avail, i);
    AtMostCounted(off + i, avail - i, r);
    assert off + i + (avail - i) == off + avail;
  }

  lemma WholeChunks(avail: nat, i: nat)
    requires i <= avail && i % CHUNK == 0
    ensures avail - i < CHUNK ==> avail / CHUNK * CHUNK == i && (avail % CHUNK != 0 <==> avail > i)
    ensures avail - i >= CHUNK ==> avail / CHUNK * CHUNK >= i + CHUNK
  {
    assert CHUNK == 3072;
    var q, d := i / 3072, avail - i;
    assert i == q * 3072;
    if d < 3072 {
      assert avail == q * 3072 + d;
      assert avail / 3072 == q && avail % 3072 == d;
    } else {
      assert avail / 3072 >= q + 1;
    }
  }

  lemma NoneCounted(off: nat)
    ensures Counted(off, 0) == CountedInChunks(off, 0) == 0
  {
  }

  /** If it was not the source that failed, the file has nothing behind that point. */
  predicate LeftAlone(file: seq<Byte>, off: nat, n: nat, avail: nat, done: nat, copied: nat) {
    copied != avail && copied < n && off <= |file| && off + n <= MAXFILE * BSIZE ==> off + done >= |file|
  }

  /** The loop of filewrite after `i` bytes; `ok` if it is to go on. */
  ghost predicate Chunks(file: seq<Byte>, off: nat, src: seq<Byte>, avail: nat, i: nat, done: nat, copied: nat,
                         ok: bool,
                         now: seq<Byte>) {
    && Progress(file, off, src, done, copied, now) && i <= |src| && copied <= avail
    && if ok then done == copied == i && (i == |src| || i % CHUNK == 0)
       else i < |src| && Ended(off, |src|, avail, done, copied) && LeftAlone(file, off, |src|, avail, done, copied)
            && done < |src|
  }

  lemma ChunksStart(file: seq<Byte>, off: nat, src: seq<Byte>, avail: nat)
    ensures Chunks(file, off, src, avail, 0, 0, 0, true, file)
    ensures Progress(file, off, src, 0, 0, file) && CountedInChunks(off, 0) == 0
  {
    hide Progress, Splice;
    ProgressNone(file, off, src);
    NoneCounted(off);
  }

  /** One transaction of a filewrite. */
  lemma ChunkDone(file: seq<Byte>, off: nat, src: seq<Byte>, avail: nat, i: nat, copied: nat, n1: nat, r: int, c: nat,
                  now: seq<Byte>, now': seq<Byte>)
    requires Chunks(file, off, src, avail, i, i, copied, true, now) && i < |src| && i <= avail
    requires n1 == (if |src| - i > CHUNK then CHUNK else |src| - i) && -1 <= r <= n1
    requires r == -1 <==> off + i > |now| || off + i + n1 > MAXFILE * BSIZE
    requires r == -1 ==> now' == now && c == 0
    requires r >= 0 ==>
               && r <= c <= n1 && c <= avail - i
               && NowSized(now', now, off + i, src[i..i + n1][..c], r)
               && (r < n1 && c != avail - i ==> off + i + r >= |now|)
               && (r < c <==> c == avail - i < n1 && avail - i > 0 && (off + i + (avail - i)) % BSIZE != 0)
               && (c == avail - i < n1 ==> r == Counted(off + i, avail - i))
               && (0 < r < n1 ==> (off + i + r) % BSIZE == 0)
    ensures var done := i + (if r > 0 then r else 0);
            Chunks(file, off, src, avail, if r == n1 then done else i, done, i + c, r == n1, now')
    ensures r == -1 ==> off > |file| || off + |src| > MAXFILE * BSIZE
  {
    hide Splice, Counted, CountedInChunks, NowSized, Ended, Progress;
    NextChunk(i);
    ProgressStep(file, off, src, i, n1, r, c, now, now');
    if r != n1 {
      NoneCounted(off + i);
      ChunkEnds(off, |src|, avail, i, n1, if r > 0 then r else 0, c);
      if off <= |file| { GrownTo(file, off, src, i, now); }
    }
  }

  /** What the loop means for a caller who knows where the source fails. */
  lemma ChunksEnd(file: seq<Byte>, off: nat, src: seq<Byte>, avail: nat, i: nat, done: nat, copied: nat, ok: bool,
                  now: seq<Byte>)
    requires Chunks(file, off, src, avail, i, done, copied, ok, now) && (ok ==> i == |src|)
    ensures Progress(file, off, src, done, copied, now) && copied <= avail
    ensures done == |src| <==> i == |src|
    ensures copied == avail < |src| ==> done == CountedInChunks(off, avail)
    ensures done < copied <==> copied == avail < |src| && (off + avail) % BSIZE != 0 && avail % CHUNK != 0
    ensures off <= |file| && off + |src| <= MAXFILE * BSIZE ==>
              (now == Splice(file, off, src[..done])
               <==> avail >= |src| || Agrees(file, off, src, CountedInChunks(off, avail), avail))
  {
    hide Progress, Splice, CountedInChunks, Agrees;
    if off <= |file| && off + |src| <= MAXFILE * BSIZE {
      WriteFate(now, file, off, src, avail, done, copied);
    }
  }

  lemma NextChunk(i: nat)
    requires i % CHUNK == 0
    ensures (i + CHUNK) % CHUNK == 0
  {
    assert CHUNK == 3072;
  }

  lemma GrownTo(file: seq<Byte>, off: nat, src: seq<Byte>, i: nat, now: seq<Byte>)
    requires Progress(file, off, src, i, i, now) && off <= |file|
    ensures |now| >= |file|
  {
  }

  lemma WriteFate(now: seq<Byte>, file: seq<Byte>, off: nat, src: seq<Byte>, avail: nat, done: nat, copied: nat)
    requires off <= |file| && Progress(file, off, src, done, copied, now)
    requires copied <= avail
    requires Ended(off, |src|, avail, done, copied) && LeftAlone(file, off, |src|, avail, done, copied)
    requires off + |src| <= MAXFILE * BSIZE
    ensures now == Splice(file, off, src[..done])
            <==> avail >= |src| || Agrees(file, off, src, CountedInChunks(off, avail), avail)
  {
    hide Splice, NowSized, CountedInChunks;
    RightIfAgrees(now, file, off, src[..copied], done);
    assert src[..copied][..done] == src[..done];
    assert Agrees(file, off, src[..copied], done, copied) <==> Agrees(file, off, src, done, copied) by {
      assert forall k: nat :: k < copied ==> src[..copied][k] == src[k];
    }
  }

  lemma ProgressNone(file: seq<Byte>, off: nat, src: seq<Byte>)
    ensures Progress(file, off, src, 0, 0, file)
  {
    Unwritten(file, off);
    assert src[..0] == [];
  }

  /** One transaction, whether it failed, wrote less, or wrote all. */
  lemma ProgressStep(file: seq<Byte>, off: nat, src: seq<Byte>, done: nat, piece: nat, r: int, c: nat, now: seq<Byte>,
                     now': seq<Byte>)
    requires Progress(file, off, src, done, done, now) && 0 < piece && done + piece <= |src| && -1 <= r <= piece
    requires r == -1 <==> off + done > |now| || off + done + piece > MAXFILE * BSIZE
    requires r == -1 ==> now' == now && c == 0
    requires r >= 0 ==> r <= c <= piece && NowSized(now', now, off + done, src[done..done + piece][..c], r)
    ensures Progress(file, off, src, done + (if r > 0 then r else 0), done + c, now')
    ensures r == -1 ==> off > |file| || off + |src| > MAXFILE * BSIZE
  {
    hide Splice;
    if off <= |file| {
      SpliceReads(file, off, src[..done]);
      if r >= 0 {
        ProgressMore(file, off, src, done, piece, r, c, now, now');
      }
    }
  }

  lemma Unwritten(s: seq<Byte>, off: nat)
    ensures off <= |s| ==> Splice(s, off, []) == s
  {
  }
}
