/** Inputs on which the code does not do what is promised, from images mkfs makes. */
module Cases {
  import opened FsDisk
  import opened FsModel
  import opened FileSystem
  import opened MkFs

  function EmptyFiles(n: nat): seq<Source> { seq(n, _ => Source([97], [])) }

  lemma {:induction false} EmptyRoom(m: nat, n: nat)
    requires m <= n
    ensures |EmptyFiles(n)| == n && Room(EmptyFiles(n), m) == 4 + 2 * m
  {
    if m > 0 { EmptyRoom(m - 1, n); }
  }

  lemma EmptyFit()
    ensures |EmptyFiles(62)| == 62 && RoomFor(EmptyFiles(62))
  {
    hide Room;
    EmptyRoom(62, 62);
  }

  /** mkfs with 62 empty files: the accounts of the image balance, and its root directory has a hole. */
  method ImageWithHole() returns (m: MkFs)
    ensures fresh(m) && Good(m.View(), {}) && ROOTINO < |m.nodes| && !NoHoles(m.View(), ROOTINO)
  {
    hide Good, Consistent, RootDir, RoomFor, EmptyFiles, NoHoles, File, Dirent;
    EmptyFit();
    var ok;
    ok, m := Make(EmptyFiles(62));
  }

  /** mkfs with one file of two bytes, once it is mounted. */
  method SmallImage() returns (fs: FileSystem, ip: Ip)
    ensures fresh(fs) && fresh(ip) && Consistent(fs.View()) && ip.Holds(fs.View()) && ip.inum == 2
    ensures fs.Logged() && fs.dirty == {} && fs.start == fs.disk && File(fs.View(), 2) == [1, 2]
  {
    hide Good, Consistent, RootDir, File;
    var files := [Source([97], [1, 2])];
    hide NoHoles, Dirent;
    assert RoomFor(files) by {
      assert Room(files, 0) == 4;
    }
    var ok, m := Make(files);
    assert files[0].contents == [1, 2];
    fs := new FileSystem(m.sb, m.disk, m.nodes, m.owner);
    assert fs.View() == m.View();
    ip := new Ip(2);
    fs.Ilock(ip);
  }

  lemma FirstBlock(fs: Fs)
    requires Consistent(fs) && 2 < |fs.nodes| && File(fs, 2) == [1, 2]
    ensures Bypasses(fs, {}, 2, 0, [7])
  {
    hide Good, RefOf;
    assert Whole(fs, 2);
    FileSize(fs, 2);
    assert DataBlock(fs, 2, 0) != 0;
    assert File(fs, 2)[0] == ByteAt(fs, 2, 0);
    assert [7][0] == 7;
  }

  /** writei of two bytes at offset 0 of that file, from a source of which only the first can be read:
      it counts none, but the first has replaced that of the file, and the log does not know. */
  method FailingSource() returns (fs: FileSystem, ghost before: Fs, r: int)
    ensures fresh(fs) && Consistent(before) && Consistent(fs.View()) && r == 0
    ensures 2 < |before.nodes| == |fs.nodes| && File(before, 2) == [1, 2] && File(fs.View(), 2) == [7, 2]
    ensures fs.start == before.disk && !fs.Logged()
  {
    hide Consistent, File, Bypasses, FileSystem.LoggedBut;
    var ip;
    fs, ip := SmallImage();
    before := fs.View();
    FileSize(before, 2);
    FirstBlock(before);
    ghost var copied;
    var src: seq<Byte> := [7, 7];
    r, copied := fs.Writei(ip, 0, src, 1);
    FileSize(fs.View(), 2);
    assert src[..1] == [7] && src[0..1] == [7];
  }
}
