/** fs.c: names in a directory, and what they say of the image mkfs makes. */
module Directory {
  import opened Common
  import opened FsDisk
  import opened FsModel
  import opened FileSystem
  import opened MkFs

  const DIRENT: nat := 16   // sizeof(struct dirent)

  type Entry = d: seq<Byte> | |d| == 16 witness seq(16, _ => 0)

  /** Entry `k` of a directory. */
  function EntryAt(dir: seq<Byte>, k: nat): Entry
    requires DIRENT * (k + 1) <= |dir|
  {
    dir[DIRENT * k..DIRENT * (k + 1)]
  }

  function InumOf(d: Entry): nat {
    var low: nat, high: nat := d[0], d[1];
    low + 256 * high
  }

  /** A name as far as it counts. */
  function Cut(name: seq<Byte>): seq<Byte> { if |name| > DIRSIZ then name[..DIRSIZ] else name }

  /** The characters of a string in a field, which has a NUL only if there is room for one. */
  function CString(field: seq<Byte>): (s: seq<Byte>)
    ensures |s| <= |field| && s == field[..|s|] && 0 !in s && (|s| < |field| ==> field[|s|] == 0)
  {
    if field == [] || field[0] == 0 then [] else [field[0]] + CString(field[1..])
  }

  /** The string `s` and the field from position `k` on are the same up to DIRSIZ characters. */
  predicate SameFrom(s: seq<Byte>, field: seq<Byte>, k: nat)
    requires |field| == DIRSIZ && k <= DIRSIZ
    decreases DIRSIZ - k
  {
    k == DIRSIZ
    || (var c := if k < |s| then s[k] else 0; c == field[k] && (c == 0 || SameFrom(s, field, k + 1)))
  }

  /** namecmp, for a name without NULs. */
  method Namecmp(s: seq<Byte>, field: seq<Byte>) returns (same: bool)
    requires |field| == DIRSIZ && 0 !in s
    ensures same <==> CString(field) == Cut(s)
  {
    var k := 0;
    NameIs(s, field, 0);
    while k < DIRSIZ
      invariant k <= DIRSIZ && SameFrom(s, field, 0) == SameFrom(s, field, k)
    {
      var c := if k < |s| then s[k] else 0;
      if c != field[k] || c == 0 {
        return c == field[k];
      }
      k := k + 1;
    }
    same := true;
  }

  lemma {:induction false} NameIs(s: seq<Byte>, field: seq<Byte>, k: nat)
    requires |field| == DIRSIZ && 0 !in s && k <= DIRSIZ
    ensures SameFrom(s, field, k) <==> CString(field[k..]) == if k < |s| then Cut(s)[k..] else []
    decreases DIRSIZ - k
  {
    if k < DIRSIZ {
      NameIs(s, field, k + 1);
      assert field[k..][1..] == field[k + 1..] && field[k..][0] == field[k];
      if k < |s| {
        assert s[k] in s;
        assert Cut(s)[k..] == [s[k]] + Cut(s)[k + 1..];
        assert k + 1 >= |s| ==> Cut(s)[k + 1..] == [];
      }
    } else {
      assert k < |s| ==> Cut(s)[k..] == [];
    }
  }

  /** Entry `k` is in use and has that name. */
  predicate Names(dir: seq<Byte>, k: nat, name: seq<Byte>)
    requires DIRENT * (k + 1) <= |dir|
  {
    InumOf(EntryAt(dir, k)) != 0 && CString(EntryAt(dir, k)[2..]) == Cut(name)
  }

  /** None of the first `n` entries has that name. */
  predicate NoneOf(dir: seq<Byte>, n: nat, name: seq<Byte>) {
    forall k: nat {:trigger Names(dir, k, name)} :: k < n && DIRENT * (k + 1) <= |dir| ==> !Names(dir, k, name)
  }

  /** The read in the loop of dirlookup: the entry, unless the directory ends within it. */
  method ReadEntry(fs: FileSystem, dp: Ip, off: nat) returns (ok: bool, de: Entry)
    requires Consistent(fs.View()) && dp.Holds(fs.View()) && fs.Logged()
    requires dp.inum < |fs.nodes| && off % DIRENT == 0 && off < |File(fs.View(), dp.inum)| == dp.size
    modifies fs`disk, fs`nodes, fs`owner, fs`dirty, dp`addrs
    ensures fs.View() == old(fs.View()) && dp.Holds(fs.View()) && fs.Logged()
    ensures ok <==> off + DIRENT <= dp.size
    ensures ok ==> de == EntryAt(old(File(fs.View(), dp.inum)), off / DIRENT)
  {
    hide Consistent, File, FileSystem.Logged;
    WholeFacts(fs.View(), dp.inum);
    var r, piece := fs.Readi(dp, off, DIRENT, DIRENT);
    ok, de := r == DIRENT, seq(16, _ => 0);
    if ok {
      de := piece;
    }
  }

  /** dirlookup: the inode number and the offset of the first entry with that name, 0 if there is none.
      It panics for an inode that is not a directory, and if a directory ends within an entry. */
  method Dirlookup(fs: FileSystem, dp: Ip, name: seq<Byte>) returns (panic: bool, inum: nat, poff: nat)
    requires Consistent(fs.View()) && dp.Holds(fs.View()) && fs.Logged() && 0 !in name
    modifies fs`disk, fs`nodes, fs`owner, fs`dirty, dp`addrs
    ensures fs.View() == old(fs.View()) && dp.Holds(fs.View()) && fs.Logged() && dp.inum < |fs.nodes|
    ensures dp.head.0 % 0x1_0000 != T_DIR ==> panic
    ensures dp.head.0 % 0x1_0000 == T_DIR && dp.size % DIRENT == 0 ==> !panic
    ensures var dir := File(fs.View(), dp.inum);
            && |dir| == dp.size
            && (!panic && inum == 0 ==> NoneOf(dir, |dir|, name))
            && (!panic && inum != 0 ==>
                  && poff % DIRENT == 0 && poff + DIRENT <= |dir|
                  && Names(dir, poff / DIRENT, name) && inum == InumOf(EntryAt(dir, poff / DIRENT))
                  && NoneOf(dir, poff / DIRENT, name))
  {
    hide Consistent, File, Ip.Holds, FileSystem.Logged, Names, CString;
    panic, inum, poff := false, 0, 0;
    Held(fs, dp);
    FileSize(fs.View(), dp.inum);
    if dp.head.0 % 0x1_0000 != T_DIR {
      return true, 0, 0;
    }
    ghost var dir := File(fs.View(), dp.inum);
    var off := 0;
    while off < dp.size
      invariant off % DIRENT == 0 && dp.size == old(dp.size) == |dir|
      invariant fs.View() == old(fs.View()) && dp.Holds(fs.View()) && fs.Logged()
      invariant NoneOf(dir, off / DIRENT, name)
    {
      var ok, de := ReadEntry(fs, dp, off);
      if !ok {
        return true, 0, 0;
      }
      var k := off / DIRENT;
      var used := InumOf(de) != 0;
      var same := Namecmp(name, de[2..]);
      NamesIs(dir, k, name);
      if used && same {
        return false, InumOf(de), off;
      }
      off := off + DIRENT;
    }
  }

  lemma NamesIs(dir: seq<Byte>, k: nat, name: seq<Byte>)
    requires DIRENT * (k + 1) <= |dir|
    ensures Names(dir, k, name) <==>
            InumOf(EntryAt(dir, k)) != 0 && CString(EntryAt(dir, k)[2..]) == Cut(name)
  {
  }

  lemma Held(fs: FileSystem, dp: Ip)
    requires dp.Holds(fs.View())
    ensures dp.inum < |fs.nodes| && fs.nodes[dp.inum].size == dp.size < UINT && fs.nodes[dp.inum].head == dp.head
  {
  }

  // ----- the directory mkfs makes -----

  lemma {:induction false} CStringOf(name: seq<Byte>, field: seq<Byte>)
    requires |name| <= |field| && 0 !in name && field[..|name|] == name && (|name| < |field| ==> field[|name|] == 0)
    ensures CString(field) == name
  {
    if name != [] {
      assert field[0] == name[0] && name[0] in name;
      assert field[1..][..|name| - 1] == field[..|name|][1..];
      CStringOf(name[1..], field[1..]);
    }
  }

  /** A directory entry says the inode number and the name, as far as it counts. */
  lemma DirentReads(inum: nat, name: seq<Byte>)
    requires inum < 0x1_0000 && 0 !in name
    ensures InumOf(Dirent(inum, name)) == inum && CString(Dirent(inum, name)[2..]) == Cut(name)
  {
    var field := Dirent(inum, name)[2..];
    assert field == seq(DIRSIZ, (k: nat) => if k < |name| then name[k] else 0);
    forall k | 0 <= k < |Cut(name)|
      ensures field[k] == Cut(name)[k] && Cut(name)[k] != 0
    {
      assert name[k] in name;
    }
    assert field[..|Cut(name)|] == Cut(name);
    CStringOf(Cut(name), field);
  }

  lemma {:induction false} RootEntryAt(files: seq<Source>, n: nat, k: nat, more: seq<Byte>)
    requires n <= |files| <= 198 && k < n + 2
    ensures EntryAt(RootDir(files, n) + more, k)
            == if k == 0 then Dirent(ROOTINO, [46]) else if k == 1 then Dirent(ROOTINO, [46, 46])
               else Dirent(k, files[k - 2].name)
  {
    hide Dirent;
    if n > 0 {
      var front, last := RootDir(files, n - 1), Dirent(n + 1, files[n - 1].name);
      assert front + last + more == front + (last + more);
      if k < n + 1 {
        RootEntryAt(files, n - 1, k, last + more);
      } else {
        assert (front + (last + more))[16 * k..16 * (k + 1)] == last;
      }
    }
  }

  /** File `j` is the first entry of its name. */
  predicate FirstOfName(files: seq<Source>, j: nat)
    requires j < |files|
  {
    && 0 !in files[j].name && Cut(files[j].name) !in {[46], [46, 46]}
    && forall i: nat {:trigger files[i]} :: i < j ==> 0 !in files[i].name && Cut(files[i].name) != Cut(files[j].name)
  }

  lemma NamedOnce(files: seq<Source>, j: nat, more: seq<Byte>)
    requires |files| <= 198 && j < |files| && FirstOfName(files, j)
    ensures var dir := RootDir(files, |files|) + more;
            && |dir| >= DIRENT * (j + 3)
            && NoneOf(dir, j + 2, files[j].name) && Names(dir, j + 2, files[j].name)
            && InumOf(EntryAt(dir, j + 2)) == j + 2
  {
    hide Dirent, CString, InumOf;
    var dir := RootDir(files, |files|) + more;
    RootEntryAt(files, |files|, j + 2, more);
    DirentReads(j + 2, files[j].name);
    forall k: nat | k < j + 2
      ensures !Names(dir, k, files[j].name)
    {
      RootEntryAt(files, |files|, k, more);
      DirentReads(if k < 2 then ROOTINO else k,
        if k == 0 then [46] else if k == 1 then [46, 46] else files[k - 2].name);
    }
  }

  /** "." and ".." are the first entries, and both are the root directory itself. */
  lemma DotsNamed(files: seq<Source>, more: seq<Byte>)
    requires |files| <= 198
    ensures var dir := RootDir(files, |files|) + more;
            && |dir| >= DIRENT * 2
            && Names(dir, 0, [46]) && InumOf(EntryAt(dir, 0)) == 1
            && Names(dir, 1, [46, 46]) && InumOf(EntryAt(dir, 1)) == 1 && NoneOf(dir, 1, [46, 46])
  {
    hide Dirent, CString, InumOf;
    RootEntryAt(files, |files|, 0, more);
    RootEntryAt(files, |files|, 1, more);
    DirentReads(ROOTINO, [46]);
    DirentReads(ROOTINO, [46, 46]);
  }

  /** What mkfs has put on the image under a name, the kernel finds there: dirlookup in the root directory
      yields the inode of the file, which is a file and has its contents. */
  method FindOnImage(files: seq<Source>, j: nat) returns (fs: FileSystem, inum: nat)
    requires |files| <= 198 && RoomFor(files) && (|files| + 2) % 64 != 0 && j < |files| && FirstOfName(files, j)
    ensures fresh(fs) && Consistent(fs.View()) && inum == j + 2 < |fs.nodes|
    ensures File(fs.View(), inum) == files[j].contents && fs.nodes[inum].head.0 % 0x1_0000 == T_FILE
  {
    hide Good, Consistent, RootDir, File, Dirent, NoHoles, Names, NoneOf, CString, InumOf, Ip.Holds;
    var ok, m := Make(files);
    fs := new FileSystem(m.sb, m.disk, m.nodes, m.owner);
    assert fs.View() == m.View();
    var root := new Ip(ROOTINO);
    fs.Ilock(root);
    Held(fs, root);
    FileSize(fs.View(), ROOTINO);
    var pad: seq<Byte> := seq(BSIZE - 16 * (|files| + 2) % BSIZE, _ => 0);
    NamedOnce(files, j, pad);
    assert files[j].contents == File(m.View(), j + 2);
    var panic, poff;
    panic, inum, poff := Dirlookup(fs, root, files[j].name);
    SameEntry(RootDir(files, |files|) + pad, inum, poff, j, files[j].name);
  }

  lemma SameEntry(dir: seq<Byte>, inum: nat, poff: nat, j: nat, name: seq<Byte>)
    requires |dir| >= DIRENT * (j + 3) && NoneOf(dir, j + 2, name) && Names(dir, j + 2, name)
    requires InumOf(EntryAt(dir, j + 2)) == j + 2
    requires inum == 0 ==> NoneOf(dir, |dir|, name)
    requires inum != 0 ==>
               && poff % DIRENT == 0 && poff + DIRENT <= |dir|
               && Names(dir, poff / DIRENT, name) && inum == InumOf(EntryAt(dir, poff / DIRENT))
               && NoneOf(dir, poff / DIRENT, name)
    ensures inum == j + 2
  {
    hide Names, InumOf;
  }
}
