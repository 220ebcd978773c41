/** What a storage state means: the files by name, and the handles by name and position. */
module TfsView {
  import opened Bytes
  import opened Directory
  import opened Inodes
  import opened TfsState
  import opened AbstractFs

  // ---- a directory and the contents of its inodes, as files by name ----

  type ByInode = map<int, seq<byte>>

  ghost function NamedFiles(dir: seq<Entry>, contents: ByInode): (files: Files)
  {
    map n | n in Names(dir) && InumAt(dir, n) in contents :: contents[InumAt(dir, n)]
  }

  lemma NamedFilesAt(dir: seq<Entry>, contents: ByInode, n: seq<byte>)
    requires OneToOne(dir, contents.Keys)
    ensures n in NamedFiles(dir, contents) <==> n in Names(dir)
    ensures n in NamedFiles(dir, contents) ==>
      InumAt(dir, n) in contents && NamedFiles(dir, contents)[n] == contents[InumAt(dir, n)]
  {
  }

  /** Two views agree except that `files'` has `c` under the name `n`. */
  lemma SameFilesBut(files: Files, files': Files, n: seq<byte>, c: seq<byte>)
    requires forall m :: m in files' <==> m == n || m in files
    requires n in files' && files'[n] == c
    requires forall m :: m in files && m != n ==> files'[m] == files[m]
    ensures files' == files[n := c]
  {
  }

  lemma SameFilesWithout(files: Files, files': Files, n: seq<byte>)
    requires forall m :: m in files' <==> m != n && m in files
    requires forall m :: m in files' ==> files'[m] == files[m]
    ensures files' == files - {n}
  {
  }

  lemma NamedFilesCount(dir: seq<Entry>, contents: ByInode)
    requires OneToOne(dir, contents.Keys)
    ensures |NamedFiles(dir, contents)| == |Names(dir)|
  {
    var files := NamedFiles(dir, contents);
    assert files.Keys == Names(dir);
    assert |files| == |files.Keys|;
  }

  lemma ContentsReplaced(dir: seq<Entry>, contents: ByInode, i: int, c: seq<byte>)
    requires OneToOne(dir, contents.Keys) && i in contents
    ensures NamedFiles(dir, contents[i := c]) == NamedFiles(dir, contents)[NameAt(dir, i) := c]
  {
    var contents' := contents[i := c];
    assert contents'.Keys == contents.Keys;
    SameFilesBut(NamedFiles(dir, contents), NamedFiles(dir, contents'), NameAt(dir, i), c);
  }

  lemma ContentsAdded(dir: seq<Entry>, contents: ByInode, dir': seq<Entry>, n: seq<byte>, i: int, c: seq<byte>)
    requires OneToOne(dir, contents.Keys) && OneToOne(dir', contents.Keys + {i})
    requires Names(dir') == Names(dir) + {n} && n !in Names(dir) && i !in contents && InumAt(dir', n) == i
    requires forall m :: m in Names(dir) ==> InumAt(dir', m) == InumAt(dir, m)
    ensures NamedFiles(dir', contents[i := c]) == NamedFiles(dir, contents)[n := c]
  {
    var contents' := contents[i := c];
    assert contents'.Keys == contents.Keys + {i};
    SameFilesBut(NamedFiles(dir, contents), NamedFiles(dir', contents'), n, c);
  }

  lemma ContentsRemoved(dir: seq<Entry>, contents: ByInode, dir': seq<Entry>, n: seq<byte>, i: int)
    requires OneToOne(dir, contents.Keys) && OneToOne(dir', contents.Keys - {i})
    requires Names(dir') == Names(dir) - {n} && n in Names(dir) && InumAt(dir, n) == i
    requires forall m :: m in Names(dir) && m != n ==> InumAt(dir', m) == InumAt(dir, m)
    ensures NamedFiles(dir', contents - {i}) == NamedFiles(dir, contents) - {n}
  {
    var contents' := contents - {i};
    assert contents'.Keys == contents.Keys - {i};
    SameFilesWithout(NamedFiles(dir, contents), NamedFiles(dir', contents'), n);
  }

  // ---- the same for a storage state ----

  /** The bytes of an inode's file. */
  function Contents(s: State, i: int): (c: seq<byte>)
    requires Shape(s) && 0 <= i < s.p.inodes
  {
    var ino := s.inodes[i];
    if 0 < ino.size <= s.p.blockSize && 0 <= ino.block < s.p.blocks then Block(s, ino.block)[..ino.size] else []
  }

  ghost function ContentsOf(s: State): (contents: ByInode)
    requires Shape(s)
    ensures contents.Keys == FileInodes(s)
  {
    map i | i in FileInodes(s) :: Contents(s, i)
  }

  ghost function FilesOf(s: State): (files: Files)
    requires Shape(s) && RootOk(s)
  {
    NamedFiles(Dir(s), ContentsOf(s))
  }

  /** The name an inode is entered under; [] for the root and for a deleted inode. */
  function NameOf(s: State, i: int): seq<byte>
    requires Shape(s) && RootOk(s)
  {
    NameAt(Dir(s), i)
  }

  ghost function HandlesOf(s: State): map<int, Handle>
    requires Shape(s) && RootOk(s)
  {
    map h | 0 <= h < s.p.handles && s.openTaken[h] :: Handle(NameOf(s, s.open[h].inum), s.open[h].offset)
  }

  ghost function Abs(s: State): Fs
    requires Shape(s) && RootOk(s)
  {
    Fs(FilesOf(s), HandlesOf(s))
  }

  /** Same directory, and only inode `i` may have new contents. */
  lemma OneFileChanged(s: State, s': State, i: int)
    requires Shape(s) && RootOk(s) && Shape(s') && RootOk(s') && Dir(s') == Dir(s)
    requires OneToOne(Dir(s), FileInodes(s)) && i in FileInodes(s) && FileInodes(s') == FileInodes(s)
    requires forall j :: j in FileInodes(s) && j != i ==> Contents(s', j) == Contents(s, j)
    ensures FilesOf(s') == FilesOf(s)[NameOf(s, i) := Contents(s', i)]
  {
    hide InumAt, NameAt, Names, Contents, Dir;
    ContentsReplaced(Dir(s), ContentsOf(s), i, Contents(s', i));
    assert ContentsOf(s') == ContentsOf(s)[i := Contents(s', i)];
  }

  /** Nothing but inodes without a name changed. */
  lemma NoFileChanged(s: State, s': State)
    requires Shape(s) && RootOk(s) && Shape(s') && RootOk(s') && Dir(s') == Dir(s)
    requires FileInodes(s') == FileInodes(s)
    requires forall j :: j in FileInodes(s) ==> Contents(s', j) == Contents(s, j)
    ensures FilesOf(s') == FilesOf(s)
  {
    hide InumAt, NameAt, Names, Contents, Dir;
    assert ContentsOf(s') == ContentsOf(s);
  }

  lemma OneFileAdded(s: State, s': State, n: seq<byte>, i: int)
    requires Shape(s) && RootOk(s) && Shape(s') && RootOk(s')
    requires OneToOne(Dir(s), FileInodes(s)) && OneToOne(Dir(s'), FileInodes(s'))
    requires FileInodes(s') == FileInodes(s) + {i} && i !in FileInodes(s)
    requires Names(Dir(s')) == Names(Dir(s)) + {n} && n !in Names(Dir(s)) && InumAt(Dir(s'), n) == i
    requires forall m :: m in Names(Dir(s)) ==> InumAt(Dir(s'), m) == InumAt(Dir(s), m)
    requires forall j :: j in FileInodes(s) ==> Contents(s', j) == Contents(s, j)
    ensures FilesOf(s') == FilesOf(s)[n := Contents(s', i)]
  {
    hide InumAt, NameAt, Names, Contents, Dir;
    assert ContentsOf(s') == ContentsOf(s)[i := Contents(s', i)];
    ContentsAdded(Dir(s), ContentsOf(s), Dir(s'), n, i, Contents(s', i));
  }

  lemma OneFileRemoved(s: State, s': State, n: seq<byte>, i: int)
    requires Shape(s) && RootOk(s) && Shape(s') && RootOk(s')
    requires OneToOne(Dir(s), FileInodes(s)) && OneToOne(Dir(s'), FileInodes(s'))
    requires FileInodes(s') == FileInodes(s) - {i}
    requires Names(Dir(s')) == Names(Dir(s)) - {n} && n in Names(Dir(s)) && InumAt(Dir(s), n) == i
    requires forall m :: m in Names(Dir(s)) && m != n ==> InumAt(Dir(s'), m) == InumAt(Dir(s), m)
    requires forall j :: j in FileInodes(s') ==> Contents(s', j) == Contents(s, j)
    ensures FilesOf(s') == FilesOf(s) - {n}
  {
    hide InumAt, NameAt, Names, Contents, Dir;
    assert ContentsOf(s') == ContentsOf(s) - {i};
    ContentsRemoved(Dir(s), ContentsOf(s), Dir(s'), n, i);
  }

  lemma FileLength(s: State, i: int)
    requires Storage(s) && Taken(s, i)
    ensures |Contents(s, i)| == s.inodes[i].size
  {
    assert s.inodes[i].size > 0 ==> HasBlock(s.inodes, s.inodeTaken, i);
  }

  lemma FileOfInode(s: State, i: int)
    requires Storage(s) && i in FileInodes(s)
    ensures NameOf(s, i) in FilesOf(s) && FilesOf(s)[NameOf(s, i)] == Contents(s, i)
    ensures FindInDir(s, NameOf(s, i)) == i && NameOk(NameOf(s, i))
    ensures |Contents(s, i)| == s.inodes[i].size
  {
    LookupByInode(Dir(s), FileInodes(s), i);
    LookupByName(Dir(s), FileInodes(s), NameOf(s, i));
    DirIsOneToOne(Dir(s), FileInodes(s));
    NamedFilesAt(Dir(s), ContentsOf(s), NameOf(s, i));
    FileLength(s, i);
  }

  lemma FileOfName(s: State, n: seq<byte>)
    requires Storage(s)
    ensures n in FilesOf(s) <==> FindInDir(s, n) != -1
    ensures n in FilesOf(s) ==> FindInDir(s, n) in FileInodes(s) && NameOf(s, FindInDir(s, n)) == n && NameOk(n)
    ensures n in FilesOf(s) ==> FilesOf(s)[n] == Contents(s, FindInDir(s, n))
  {
    LookupByName(Dir(s), FileInodes(s), n);
    DirIsOneToOne(Dir(s), FileInodes(s));
    NamedFilesAt(Dir(s), ContentsOf(s), n);
  }

  lemma FileCount(s: State)
    requires Storage(s)
    ensures |FilesOf(s)| == |FileInodes(s)| == |Names(Dir(s))| <= s.p.DirSlots()
    ensures FirstEntry(Dir(s), Empty) == -1 <==> |FilesOf(s)| == s.p.DirSlots()
  {
    DirectorySize(Dir(s), FileInodes(s));
    DirIsOneToOne(Dir(s), FileInodes(s));
    NamedFilesCount(Dir(s), ContentsOf(s));
  }

  // ---- when the tables run out, read off the files ----

  /** The inode table is full iff the files and the root directory fill it. */
  lemma InodesFull(s: State)
    requires Storage(s)
    ensures |FilesOf(s)| + 1 <= s.p.inodes
    ensures FirstFree(s.inodeTaken) == -1 <==> |FilesOf(s)| + 1 == s.p.inodes
  {
    FileCount(s);
    assert ROOT in TakenSet(s.inodeTaken);
    FullTable(s.inodeTaken);
  }

  lemma NonEmptyFile(s: State, i: int)
    requires Storage(s) && i in Owners(s.inodes, s.inodeTaken) - {ROOT}
    ensures NameOf(s, i) in NonEmpty(FilesOf(s)) && InumAt(Dir(s), NameOf(s, i)) == i
  {
    assert i in FileInodes(s);
    FileOfInode(s, i);
    assert Contents(s, i) != [];
  }

  lemma NonEmptyOwner(s: State, n: seq<byte>)
    requires Storage(s) && n in NonEmpty(FilesOf(s))
    ensures InumAt(Dir(s), n) in Owners(s.inodes, s.inodeTaken) - {ROOT} && NameOf(s, InumAt(Dir(s), n)) == n
  {
    FileOfName(s, n);
    assert FindInDir(s, n) in FileInodes(s);
  }

  lemma NonEmptyOwners(s: State)
    requires Storage(s)
    ensures |Owners(s.inodes, s.inodeTaken)| == 1 + |NonEmpty(FilesOf(s))|
  {
    hide InumAt, NameAt, DirMap, BlockMap, Block, Entries, FilesOf, NonEmpty, Dir;
    var all := Owners(s.inodes, s.inodeTaken);
    var owners := all - {ROOT};
    var names := NonEmpty(FilesOf(s));
    var dir := Dir(s);
    forall n | n in names ensures InumAt(dir, n) in owners && NameAt(dir, InumAt(dir, n)) == n {
      NonEmptyOwner(s, n);
    }
    forall i | i in owners ensures NameAt(dir, i) in names && InumAt(dir, NameAt(dir, i)) == i {
      NonEmptyFile(s, i);
    }
    NamesMatchInodes(dir, names, owners);
    assert HasBlock(s.inodes, s.inodeTaken, ROOT);
    assert all == owners + {ROOT};
  }

  /** TAKEN blocks: one for the root directory and one for each non-empty file. */
  lemma BlocksFull(s: State)
    requires Storage(s)
    ensures |TakenSet(s.blockTaken)| == 1 + |NonEmpty(FilesOf(s))| <= s.p.blocks
    ensures FirstFree(s.blockTaken) == -1 <==> 1 + |NonEmpty(FilesOf(s))| == s.p.blocks
  {
    BlocksInUse(s.inodes, s.inodeTaken, s.blockTaken, s.p.blockSize);
    NonEmptyOwners(s);
    FullTable(s.blockTaken);
  }

  lemma NonEmptyBound(files: Files)
    ensures |NonEmpty(files)| <= |files|
    ensures forall n :: n in files && files[n] == [] ==> |NonEmpty(files)| < |files|
  {
    var rest := files.Keys - NonEmpty(files);
    assert files.Keys == NonEmpty(files) + rest;
    assert |files.Keys| == |NonEmpty(files)| + |rest|;
    forall n | n in files && files[n] == [] ensures |NonEmpty(files)| < |files| {
      assert n in rest;
    }
  }

  /** With at least as many blocks as inodes there is always a block for an empty file. */
  lemma NeverShortOfBlocks(s: State, i: int)
    requires Storage(s) && i in FileInodes(s) && s.inodes[i].size == 0
    requires s.p.blocks >= s.p.inodes
    ensures FirstFree(s.blockTaken) != -1
  {
    FileOfInode(s, i);
    NonEmptyBound(FilesOf(s));
    BlocksFull(s);
    InodesFull(s);
  }

  /** With at least `inodes - 1` entries the inode table fills up before the directory does. */
  lemma NeverShortOfEntries(s: State)
    requires Storage(s) && FirstFree(s.inodeTaken) != -1
    requires s.p.DirSlots() >= s.p.inodes - 1
    ensures FirstEntry(Dir(s), Empty) != -1
  {
    InodesFull(s);
    FileCount(s);
  }
}
