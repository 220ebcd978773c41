/** TécnicoFS refines the simple file system: one call, then every run of calls. */
module TfsRefinement {
  import opened Bytes
  import opened Directory
  import opened Inodes
  import opened TfsState
  import opened AbstractFs
  import opened TfsView
  import opened TfsStorage

  // ---- the handle layer, seen abstractly ----

  /** Every handle names an existing file and is not past its end. */
  ghost predicate Fits(a: Fs) {
    forall h :: h in a.handles ==>
      a.handles[h].name in a.files && a.handles[h].offset <= |a.files[a.handles[h].name]|
  }

  /** A name found in the directory is never that of the root, of a free entry or of a deleted inode. */
  lemma NamedInodeIsLive(s: State, i: int)
    requires Storage(s)
    ensures NameOf(s, i) in FilesOf(s) <==> i in FileInodes(s)
  {
    if i in FileInodes(s) {
      FileOfInode(s, i);
    } else {
      var k := FirstEntry(Dir(s), Numbered(i));
      assert k != -1 ==> !IsLive(Dir(s), k);
      assert NameOf(s, i) == [];
      FileOfName(s, []);
    }
  }

  lemma HandleIsFit(s: State, h: int)
    requires Storage(s) && IsOpen(s, h)
    ensures HandleOk(s, h) <==>
      NameOf(s, s.open[h].inum) in FilesOf(s) && s.open[h].offset <= |FilesOf(s)[NameOf(s, s.open[h].inum)]|
  {
    hide InumAt, NameAt, Names, DirMap, BlockMap, Block, Entries, FilesOf, Contents;
    NamedInodeIsLive(s, s.open[h].inum);
    if s.open[h].inum in FileInodes(s) {
      FileOfInode(s, s.open[h].inum);
    }
  }

  /** The handle layer is intact iff the handles fit the files. */
  lemma HandlesAreFits(s: State)
    requires Storage(s)
    ensures Handles(s) <==> Fits(Abs(s))
  {
    hide InumAt, NameAt, Names, DirMap, BlockMap, Block, Entries, FilesOf, HandleOk, Dir;
    forall h | IsOpen(s, h)
      ensures HandleOk(s, h) <==>
        NameOf(s, s.open[h].inum) in FilesOf(s) && s.open[h].offset <= |FilesOf(s)[NameOf(s, s.open[h].inum)]|
    {
      HandleIsFit(s, h);
    }
    var a := Abs(s);
    forall h ensures h in a.handles <==> IsOpen(s, h) {}
  }

  lemma NextHandleIsFirstFree(s: State)
    requires Shape(s) && RootOk(s)
    ensures NextHandle(s.p, Abs(s)) == FirstFree(s.openTaken)
  {
    assert seq(s.p.handles, h => h in Abs(s).handles) == s.openTaken;
  }

  // ---- open ----

  ghost predicate SameHandles(s: State, s': State) {
    s'.open == s.open && s'.openTaken == s.openTaken
  }

  ghost predicate KeepsNames(s: State, s': State)
    requires Shape(s) && RootOk(s) && Shape(s') && RootOk(s')
  {
    forall j :: j in FileInodes(s) ==> j in FileInodes(s') && NameOf(s', j) == NameOf(s, j)
  }

  /** Handle `h` was granted on inode `i` at `off`, or there was none left. */
  ghost predicate GrantedTo(s: State, s': State, h: int, i: int, off: nat) {
    && h == FirstFree(s.openTaken)
    && |s.open| == |s.openTaken|
    && if h == -1 then SameHandles(s, s')
       else s'.openTaken == s.openTaken[h := true] && s'.open == s.open[h := OpenFile(i, off)]
  }

  /** The outcome of `tfs_open`, whatever the handle layer is like. */
  ghost predicate OpenOutcome(s: State, s': State, h: int, name: seq<byte>, mode: Mode)
    requires Storage(s) && Storage(s')
  {
    var (files, found) := OpenFiles(s.p, FilesOf(s), name, mode);
    && s'.p == s.p && FilesOf(s') == files && KeepsNames(s, s')
    && if found then
         var i := FindInDir(s', name[1..]);
         && i in FileInodes(s') && NameOf(s', i) == name[1..]
         && GrantedTo(s, s', h, i, if mode.append then |files[name[1..]]| else 0)
       else h == -1 && s' == s.(inodes := s'.inodes)
  }

  lemma AddHandleKeepsStorage(s: State, i: int, off: nat)
    requires Storage(s)
    ensures var (s', h) := AddHandle(s, i, off);
      && Storage(s') && FilesOf(s') == FilesOf(s) && Dir(s') == Dir(s) && FileInodes(s') == FileInodes(s)
      && GrantedTo(s, s', h, i, off)
  {
    hide InumAt, NameAt, Names, DirMap, BlockMap, Entries, NamedFiles;
    var (s', h) := AddHandle(s, i, off);
    assert ContentsOf(s') == ContentsOf(s) by {
      forall j | j in FileInodes(s) ensures Contents(s', j) == Contents(s, j) {
        SameBytesSameFile(s, s', j);
      }
    }
  }

  lemma OpenExisting(s: State, name: seq<byte>, mode: Mode)
    requires Storage(s) && ValidPath(name) && name[1..] in FilesOf(s)
    ensures var (s', h) := Open(s, name, mode); Storage(s') && OpenOutcome(s, s', h, name, mode)
  {
    hide InumAt, NameAt, Names, DirMap, BlockMap, Dir, Contents, FilesOf;
    var i := FindInDir(s, name[1..]);
    FileOfName(s, name[1..]);
    FileOfInode(s, i);
    var s1 := if mode.trunc then Truncate(s, i) else s;
    if mode.trunc { TruncateEmpties(s, i); }
    FileOfInode(s1, i);
    var off := if mode.append then s1.inodes[i].size else 0;
    AddHandleKeepsStorage(s1, i, off);
  }

  /** The storage layer once a name has been entered for a new inode. */
  lemma Entered(s: State, k: int, sub: seq<byte>)
    requires Storage(s) && NameOk(sub) && sub !in Names(Dir(s))
    requires CreateFile(s).1 != -1 && k == FirstEntry(Dir(s), Empty) != -1
    ensures RootOk(CreateFile(s).0) && Dir(CreateFile(s).0) == Dir(s)
    ensures var (s1, n) := CreateFile(s); var s2 := SetEntry(s1, k, sub, n);
      && Storage(s2) && FilesOf(s2) == FilesOf(s)[sub := []] && KeepsNames(s, s2)
      && n in FileInodes(s2) && NameOf(s2, n) == sub && FindInDir(s2, sub) == n
  {
    hide InumAt, NameAt, Names, DirMap, BlockMap, Block, Entries, Contents, FilesOf;
    CreateAdds(s, k, sub);
    var (s1, n) := CreateFile(s);
    var s2 := SetEntry(s1, k, sub, n);
    EntryAdded(Dir(s), FileInodes(s), k, sub, n);
    LookupByName(Dir(s2), FileInodes(s2), sub);
  }

  /** What `tfs_open` computes when it creates the file. */
  lemma OpenOfNew(s: State, name: seq<byte>, mode: Mode)
    requires Storage(s) && ValidPath(name) && FindInDir(s, name[1..]) == -1 && mode.creat
    requires CreateFile(s).1 != -1 && RootOk(CreateFile(s).0) && Dir(CreateFile(s).0) == Dir(s)
    requires FirstEntry(Dir(s), Empty) != -1 && |name[1..]| < MAX_FILE_NAME
    ensures var (s1, n) := CreateFile(s);
      Open(s, name, mode) == AddHandle(SetEntry(s1, FirstEntry(Dir(s), Empty), name[1..], n), n, 0)
  {
    hide InumAt, DirMap, BlockMap, Dir, CreateFile, SetEntry, AddHandle, FindInDir;
  }

  lemma OpenCreates(s: State, name: seq<byte>, mode: Mode)
    requires Storage(s) && NulFree(name) && ValidPath(name) && name[1..] !in FilesOf(s)
    requires mode.creat && |name[1..]| < MAX_FILE_NAME && RoomFor(s.p, FilesOf(s))
    ensures var (s', h) := Open(s, name, mode); Storage(s') && OpenOutcome(s, s', h, name, mode)
  {
    hide InumAt, NameAt, Names, DirMap, BlockMap, Dir, Contents, FilesOf, Open, SetEntry, AddHandle, FirstEntry;
    var sub := name[1..];
    FileOfName(s, sub);
    InodesFull(s);
    FileCount(s);
    LookupByName(Dir(s), FileInodes(s), sub);
    var k := FirstEntry(Dir(s), Empty);
    assert NameOk(sub) && k != -1 && Empty.Matches(Dir(s)[k]);
    Entered(s, k, sub);
    OpenOfNew(s, name, mode);
    var (s1, n) := CreateFile(s);
    AddHandleKeepsStorage(SetEntry(s1, k, sub, n), n, 0);
  }

  /** What `tfs_open` computes when the name cannot be entered: the new inode is given back. */
  lemma OpenOfNoRoom(s: State, name: seq<byte>, mode: Mode)
    requires Storage(s) && ValidPath(name) && FindInDir(s, name[1..]) == -1 && mode.creat
    requires CreateFile(s).1 != -1 && RootOk(CreateFile(s).0) && Dir(CreateFile(s).0) == Dir(s)
    requires FirstEntry(Dir(s), Empty) == -1 || |name[1..]| >= MAX_FILE_NAME
    ensures Open(s, name, mode) == (DeleteInode(CreateFile(s).0, CreateFile(s).1), -1)
  {
    hide InumAt, DirMap, BlockMap, Dir, FindInDir;
  }

  lemma NoEntryLeft(s: State, name: seq<byte>, mode: Mode)
    requires Storage(s) && ValidPath(name) && name[1..] !in FilesOf(s)
    requires !OpenFiles(s.p, FilesOf(s), name, mode).1 && mode.creat && CreateFile(s).1 != -1
    ensures FindInDir(s, name[1..]) == -1
    ensures FirstEntry(Dir(s), Empty) == -1 || |name[1..]| >= MAX_FILE_NAME
  {
    hide InumAt, NameAt, Names, DirMap, BlockMap, Dir, Contents, FilesOf, FirstEntry;
    FileOfName(s, name[1..]);
    InodesFull(s);
    FileCount(s);
  }

  lemma OpenWithoutRoom(s: State, name: seq<byte>, mode: Mode)
    requires Storage(s) && NulFree(name) && ValidPath(name) && name[1..] !in FilesOf(s)
    requires !OpenFiles(s.p, FilesOf(s), name, mode).1 && mode.creat && CreateFile(s).1 != -1
    ensures var (s', h) := Open(s, name, mode); Storage(s') && OpenOutcome(s, s', h, name, mode)
  {
    hide InumAt, NameAt, Names, DirMap, BlockMap, Dir, Contents, FilesOf, Open, DeleteInode, FirstEntry, OpenFiles;
    NoEntryLeft(s, name, mode);
    FreshInode(s);
    OpenOfNoRoom(s, name, mode);
    FailedCreateRestores(s);
  }

  lemma OpenRefused(s: State, name: seq<byte>, mode: Mode)
    requires Storage(s) && NulFree(name) && !OpenFiles(s.p, FilesOf(s), name, mode).1
    ensures var (s', h) := Open(s, name, mode); Storage(s') && OpenOutcome(s, s', h, name, mode)
  {
    hide InumAt, NameAt, Names, DirMap, BlockMap, Block, Entries, Contents, FilesOf;
    if ValidPath(name) {
      FileOfName(s, name[1..]);
      if mode.creat && CreateFile(s).1 != -1 {
        OpenWithoutRoom(s, name, mode);
      }
    }
  }

  /**
   * `tfs_open` on any intact storage: it truncates, creates or refuses exactly as the simple
   * file system does; every failing create leaves the files alone and leaks no inode.
   */
  lemma OpenRefines(s: State, name: seq<byte>, mode: Mode)
    requires Storage(s) && NulFree(name)
    ensures var (s', h) := Open(s, name, mode); Storage(s') && OpenOutcome(s, s', h, name, mode)
  {
    if ValidPath(name) && name[1..] in FilesOf(s) {
      OpenExisting(s, name, mode);
    } else if OpenFiles(s.p, FilesOf(s), name, mode).1 {
      OpenCreates(s, name, mode);
    } else {
      OpenRefused(s, name, mode);
    }
  }

  // ---- one call ----

  /** The concrete step of a call. */
  function Step(s: State, c: Call): (r: (State, Reply))
    requires Inv(s) && WellFormed(c)
  {
    match c
    case OpenCall(n, m) => var (s', h) := Open(s, n, m); (s', Reply(h, []))
    case CloseCall(h) => var (s', v) := Close(s, h); (s', Reply(v, []))
    case ReadCall(h, len) => HandleInBounds(s, h); var (s', v, b) := Read(s, h, len); (s', Reply(v, b))
    case WriteCall(h, buf) => HandleInBounds(s, h); var (s', v) := Write(s, h, buf); (s', Reply(v, []))
    case UnlinkCall(n) => var (s', v) := Unlink(s, n); (s', Reply(v, []))
  }

  /** On an intact state no handle leads outside the tables. */
  lemma HandleInBounds(s: State, h: int)
    requires Inv(s)
    ensures InBounds(s, h)
    ensures IsOpen(s, h) ==>
      s.open[h].inum in FileInodes(s) && s.open[h].offset <= s.inodes[s.open[h].inum].size <= s.p.blockSize
  {
    if IsOpen(s, h) {
      assert HandleOk(s, h);
      var i := s.open[h].inum;
      assert s.inodes[i].size > 0 ==> HasBlock(s.inodes, s.inodeTaken, i);
    }
  }

  /** What a call has to achieve: storage intact, and the simple file system's step taken. */
  ghost predicate Refines(s: State, c: Call)
    requires Inv(s) && WellFormed(c)
  {
    var (s', reply) := Step(s, c);
    && s'.p == s.p && Storage(s')
    && AbsStep(s.p, Abs(s), c).1 == reply
    && FilesOf(s') == AbsStep(s.p, Abs(s), c).0.files
    && (Obeys(Abs(s), c) ==> HandlesOf(s') == AbsStep(s.p, Abs(s), c).0.handles)
  }

  lemma NextHandleIgnoresFiles(s: State, files: Files)
    requires Shape(s) && RootOk(s)
    ensures NextHandle(s.p, Fs(files, HandlesOf(s))) == NextHandle(s.p, Abs(s))
  {
    hide HandlesOf;
    var a, b := Fs(files, HandlesOf(s)), Abs(s);
    assert seq(s.p.handles, h => h in a.handles) == seq(s.p.handles, h => h in b.handles);
  }

  /** Granting a handle, concretely and abstractly. */
  lemma GrantRefines(s: State, s': State, h: int, i: int, off: nat)
    requires Inv(s) && Storage(s') && s'.p == s.p && KeepsNames(s, s')
    requires GrantedTo(s, s', h, i, off) && i in FileInodes(s')
    ensures var (a, reply) := Grant(s.p, Fs(FilesOf(s'), HandlesOf(s)), NameOf(s', i), off);
      reply == Reply(h, []) && HandlesOf(s') == a.handles
  {
    hide InumAt, NameAt, Names, DirMap, BlockMap, FilesOf, Dir, NameOf, NextHandle;
    NextHandleIsFirstFree(s);
    NextHandleIgnoresFiles(s, FilesOf(s'));
    forall g | IsOpen(s, g) ensures s.open[g].inum in FileInodes(s) {
      assert HandleOk(s, g);
    }
  }

  lemma OpenCallRefines(s: State, name: seq<byte>, mode: Mode)
    requires Inv(s) && NulFree(name)
    ensures Refines(s, OpenCall(name, mode))
  {
    hide InumAt, NameAt, Names, DirMap, BlockMap, Block, Entries, FilesOf, Dir, Open;
    OpenRefines(s, name, mode);
    var (s', h) := Open(s, name, mode);
    var (files, found) := OpenFiles(s.p, FilesOf(s), name, mode);
    if found {
      GrantRefines(s, s', h, FindInDir(s', name[1..]), if mode.append then |files[name[1..]]| else 0);
    } else {
      SameOpenTable(s, s');
    }
  }

  lemma SameOpenTable(s: State, s': State)
    requires Inv(s) && Storage(s') && s'.p == s.p && KeepsNames(s, s') && SameHandles(s, s')
    ensures HandlesOf(s') == HandlesOf(s)
  {
    hide InumAt, NameAt, Names, DirMap, BlockMap, Block, Entries, Dir;
    forall g | IsOpen(s, g) ensures s.open[g].inum in FileInodes(s) {
      assert HandleOk(s, g);
    }
  }

  lemma CloseCallRefines(s: State, h: int)
    requires Inv(s)
    ensures Refines(s, CloseCall(h))
  {
    hide InumAt, NameAt, Names, DirMap, BlockMap, Entries, NamedFiles;
    var s' := Close(s, h).0;
    assert ContentsOf(s') == ContentsOf(s) by {
      forall j | j in FileInodes(s) ensures Contents(s', j) == Contents(s, j) {
        SameBytesSameFile(s, s', j);
      }
    }
    if IsOpen(s, h) {
      assert HandlesOf(s') == HandlesOf(s) - {h};
    }
  }

  /** A read returns the file's bytes from the position on and moves the position past them. */
  lemma ReadReply(s: State, h: int, len: nat)
    requires Inv(s) && IsOpen(s, h)
    ensures InBounds(s, h) && s.open[h].offset <= s.inodes[s.open[h].inum].size
    ensures var OpenFile(i, off) := s.open[h]; var c := Contents(s, i);
      var end := if off + len < |c| then off + len else |c|; var (s', n, bytes) := Read(s, h, len);
      && off <= end <= |c| && n == end - off && bytes == c[off..end]
      && s' == s.(open := s.open[h := OpenFile(i, end)])
  {
    hide InumAt, NameAt, Names, DirMap, BlockMap, Entries, Block;
    HandleInBounds(s, h);
    var OpenFile(i, off) := s.open[h];
    FileLength(s, i);
    ReadNeverWraps(s.inodes[i].size, off);
  }

  lemma ReadCallRefines(s: State, h: int, len: nat)
    requires Inv(s)
    ensures Refines(s, ReadCall(h, len))
  {
    hide InumAt, NameAt, Names, DirMap, BlockMap, Entries, NamedFiles, Block, Contents, Read;
    HandleInBounds(s, h);
    if IsOpen(s, h) {
      ReadReply(s, h, len);
      FileOfInode(s, s.open[h].inum);
      OpenTableIrrelevant(s, Read(s, h, len).0.open);
    } else {
      ReadOfClosed(s, h, len);
    }
  }

  lemma ReadOfClosed(s: State, h: int, len: nat)
    requires Shape(s) && !IsOpen(s, h)
    ensures Read(s, h, len) == (s, -1, [])
  {
  }

  /** `tfs_unlink` on any intact storage removes exactly the named file, or fails and changes nothing. */
  lemma UnlinkRefines(s: State, name: seq<byte>)
    requires Storage(s) && NulFree(name)
    ensures var (s', v) := Unlink(s, name);
      && Storage(s') && s'.p == s.p && SameHandles(s, s')
      && if ValidPath(name) && name[1..] in FilesOf(s) then
           var i := FindInDir(s, name[1..]);
           && v == 0 && FilesOf(s') == FilesOf(s) - {name[1..]}
           && i in FileInodes(s) && NameOf(s, i) == name[1..] && FileInodes(s') == FileInodes(s) - {i}
           && (forall j :: j in FileInodes(s') ==> NameOf(s', j) == NameOf(s, j))
         else v == -1 && s' == s
  {
    hide InumAt, NameAt, Names, DirMap, BlockMap, Block, Entries, FilesOf, Contents;
    if ValidPath(name) {
      var sub := name[1..];
      FileOfName(s, sub);
      LookupByName(Dir(s), FileInodes(s), sub);
      if sub in FilesOf(s) {
        UnlinkRemoves(s, sub, InumAt(Dir(s), sub));
        EntryCleared(Dir(s), FileInodes(s), sub);
      }
    }
  }

  lemma UnlinkCallRefines(s: State, name: seq<byte>)
    requires Inv(s) && NulFree(name)
    ensures Refines(s, UnlinkCall(name))
  {
    hide InumAt, NameAt, Names, DirMap, BlockMap, Block, Entries, FilesOf, Dir, Unlink;
    UnlinkRefines(s, name);
    var s' := Unlink(s, name).0;
    if Obeys(Abs(s), UnlinkCall(name)) && s' != s {
      var i := FindInDir(s, name[1..]);
      forall g | IsOpen(s, g) ensures s.open[g].inum in FileInodes(s') {
        assert HandleOk(s, g) && g in Abs(s).handles;
      }
      assert HandlesOf(s') == HandlesOf(s);
    }
  }

  /** A write through handle `h` that stores something, in terms of `Written`. */
  lemma WriteIsWritten(s: State, h: int, buf: seq<byte>)
    requires Inv(s) && |buf| < TWO63 && IsOpen(s, h)
    ensures InBounds(s, h)
    ensures var OpenFile(i, off) := s.open[h]; var n := Clip(s.p, |buf|, off); var s' := Write(s, h, buf).0;
      n > 0 && BlockForWrite(s, i).1 != -1 ==>
        && i in FileInodes(s) && off <= s.inodes[i].size && n <= |buf| && off + n <= s.p.blockSize
        && s' == Written(s, i, off, buf[..n]).(open := s.open[h := OpenFile(i, off + n)])
  {
    hide InumAt, NameAt, Names, DirMap, BlockMap, Block, Entries, FilesOf, Dir;
    HandleInBounds(s, h);
    var OpenFile(i, off) := s.open[h];
    ClipNeverWraps(s.p, |buf|, off);
    BlockFound(s, i);
  }

  /** A write that stores `n > 0` bytes. */
  lemma StoringWrite(s: State, h: int, buf: seq<byte>)
    requires Inv(s) && |buf| < TWO63 && IsOpen(s, h) && InBounds(s, h) && 0 <= s.open[h].inum < s.p.inodes
    requires Clip(s.p, |buf|, s.open[h].offset) > 0 && BlockForWrite(s, s.open[h].inum).1 != -1
    ensures var OpenFile(i, off) := s.open[h]; var n := Clip(s.p, |buf|, off); var (s', v) := Write(s, h, buf);
      && s'.p == s.p && Storage(s') && v == n <= |buf|
      && i in FileInodes(s) && off <= |Contents(s, i)|
      && FilesOf(s') == FilesOf(s)[NameOf(s, i) := Splice(Contents(s, i), off, buf[..n])]
      && HandlesOf(s') == HandlesOf(s)[h := Handle(NameOf(s, i), off + n)]
  {
    hide InumAt, NameAt, Names, DirMap, BlockMap, Block, Entries, FilesOf, Contents, Written;
    var OpenFile(i, off) := s.open[h];
    FileLength(s, i);
    var n := Clip(s.p, |buf|, off);
    WriteIsWritten(s, h, buf);
    WriteSplices(s, i, off, buf[..n]);
    var w := Written(s, i, off, buf[..n]);
    WrittenKeepsHandles(s, i, off, buf[..n]);
    OpenTableIrrelevant(w, s.open[h := OpenFile(i, off + n)]);
  }

  lemma WrittenKeepsHandles(s: State, i: int, off: nat, src: seq<byte>)
    requires Storage(s) && i in FileInodes(s) && BlockForWrite(s, i).1 != -1
    requires off <= s.inodes[i].size && off + |src| <= s.p.blockSize
    ensures var w := Written(s, i, off, src); SameHandles(s, w) && w.p == s.p
  {
  }

  lemma StoringWriteRefines(s: State, h: int, buf: seq<byte>)
    requires Inv(s) && |buf| < TWO63 && IsOpen(s, h) && InBounds(s, h)
    requires Clip(s.p, |buf|, s.open[h].offset) > 0 && BlockForWrite(s, s.open[h].inum).1 != -1
    ensures Refines(s, WriteCall(h, buf))
  {
    hide InumAt, NameAt, Names, DirMap, BlockMap, Block, Entries, FilesOf, Dir, Contents, Splice, Write;
    var OpenFile(i, off) := s.open[h];
    HandleInBounds(s, h);
    ClipNeverWraps(s.p, |buf|, off);
    FileOfInode(s, i);
    BlocksFull(s);
    StoringWrite(s, h, buf);
  }

  /** A write of no bytes, or one that needs a block when none is FREE. */
  lemma SilentWriteRefines(s: State, h: int, buf: seq<byte>)
    requires Inv(s) && |buf| < TWO63 && InBounds(s, h)
    requires IsOpen(s, h) ==> Clip(s.p, |buf|, s.open[h].offset) == 0 || BlockForWrite(s, s.open[h].inum).1 == -1
    ensures Refines(s, WriteCall(h, buf))
  {
    hide InumAt, NameAt, Names, DirMap, BlockMap, Block, Entries, FilesOf, Dir, Contents, Splice;
    if IsOpen(s, h) {
      var OpenFile(i, off) := s.open[h];
      HandleInBounds(s, h);
      ClipNeverWraps(s.p, |buf|, off);
      FileOfInode(s, i);
      BlocksFull(s);
    }
  }

  lemma WriteCallRefines(s: State, h: int, buf: seq<byte>)
    requires Inv(s) && |buf| < TWO63
    ensures Refines(s, WriteCall(h, buf))
  {
    hide Refines, Clip, BlockForWrite;
    HandleInBounds(s, h);
    if IsOpen(s, h) && Clip(s.p, |buf|, s.open[h].offset) > 0 && BlockForWrite(s, s.open[h].inum).1 != -1 {
      StoringWriteRefines(s, h, buf);
    } else {
      SilentWriteRefines(s, h, buf);
    }
  }

  lemma OpenTableIrrelevant(s: State, open: seq<OpenFile>)
    requires Storage(s) && |open| == s.p.handles
    ensures Storage(s.(open := open)) && FilesOf(s.(open := open)) == FilesOf(s)
    ensures Dir(s.(open := open)) == Dir(s)
  {
    hide InumAt, NameAt, Names, DirMap, BlockMap, Entries, NamedFiles;
    var s' := s.(open := open);
    assert ContentsOf(s') == ContentsOf(s) by {
      forall j | j in FileInodes(s) ensures Contents(s', j) == Contents(s, j) {
        SameBytesSameFile(s, s', j);
      }
    }
  }

  /** Every call refines the simple file system's step. */
  lemma StepRefines(s: State, c: Call)
    requires Inv(s) && WellFormed(c)
    ensures Refines(s, c)
  {
    hide Refines;
    match c
    case OpenCall(n, m) => OpenCallRefines(s, n, m);
    case CloseCall(h) => CloseCallRefines(s, h);
    case ReadCall(h, len) => ReadCallRefines(s, h, len);
    case WriteCall(h, buf) => WriteCallRefines(s, h, buf);
    case UnlinkCall(n) => UnlinkCallRefines(s, n);
  }

  // ---- the usage rules are exactly what the handle layer needs ----

  /** In the simple file system a call leaves every handle fitting iff it obeys the rules. */
  lemma RulesKeepFits(p: Params, a: Fs, c: Call)
    requires p.Ok() && Fits(a)
    requires forall n :: n in a.files ==> |a.files[n]| <= p.blockSize
    ensures Fits(AbsStep(p, a, c).0) <==> Obeys(a, c)
  {
    var b := AbsStep(p, a, c).0;
    if c.UnlinkCall? && !Obeys(a, c) {
      var h :| h in a.handles && a.handles[h].name == c.name[1..];
      assert h in b.handles;
    }
    if c.OpenCall? && !Obeys(a, c) {
      var h :| h in a.handles && a.handles[h].name == c.name[1..] && a.handles[h].offset != 0;
      var granted := NextHandle(p, a);
      assert granted == -1 || granted !in a.handles;
      assert h in b.handles && b.handles[h] == a.handles[h];
    }
  }

  /** The handle layer survives a call iff the call obeys the usage rules. */
  lemma RulesKeepHandles(s: State, c: Call)
    requires Inv(s) && WellFormed(c)
    ensures Storage(Step(s, c).0)
    ensures Handles(Step(s, c).0) <==> Obeys(Abs(s), c)
  {
    hide InumAt, NameAt, Names, DirMap, BlockMap, Block, Entries, FilesOf, Dir, Step, AbsStep, Contents;
    StepRefines(s, c);
    HandlesAreFits(s);
    HandlesAreFits(Step(s, c).0);
    FilesAreShort(s);
    RulesKeepFits(s.p, Abs(s), c);
    if !Obeys(Abs(s), c) {
      BrokenRule(s, c);
    }
  }

  lemma FilesAreShort(s: State)
    requires Storage(s)
    ensures forall n :: n in FilesOf(s) ==> |FilesOf(s)[n]| <= s.p.blockSize
  {
    hide InumAt, NameAt, Names, DirMap, BlockMap, Block, Entries, FilesOf, Contents;
    forall n | n in FilesOf(s) ensures |FilesOf(s)[n]| <= s.p.blockSize {
      FileOfName(s, n);
      FileOfInode(s, FindInDir(s, n));
      SizeIsShort(s, FindInDir(s, n));
    }
  }

  /** Unlinking an open file, or truncating one under an advanced handle, leaves a bad handle. */
  lemma BrokenRule(s: State, c: Call)
    requires Inv(s) && WellFormed(c) && !Obeys(Abs(s), c)
    requires Storage(Step(s, c).0)
    ensures !Handles(Step(s, c).0)
  {
    hide InumAt, NameAt, Names, DirMap, BlockMap, Block, Entries, FilesOf, Dir, Contents, Open, Unlink;
    var s' := Step(s, c).0;
    var a := Abs(s);
    HandlesAreFits(s);
    if c.UnlinkCall? {
      UnlinkRefines(s, c.name);
      var h :| h in a.handles && a.handles[h].name == c.name[1..];
      assert IsOpen(s, h) && HandleOk(s, h);
      FileOfInode(s, s.open[h].inum);
      assert IsOpen(s', h) && s'.open[h] == s.open[h];
      assert !HandleOk(s', h);
    } else {
      OpenRefines(s, c.name, c.mode);
      var h :| h in a.handles && a.handles[h].name == c.name[1..] && a.handles[h].offset != 0;
      assert IsOpen(s, h) && HandleOk(s, h);
      FileOfInode(s, s.open[h].inum);
      FileOfInode(s', s.open[h].inum);
      assert IsOpen(s', h) && s'.open[h] == s.open[h];
      assert !HandleOk(s', h);
    }
  }

  /** Every rule-abiding call keeps both layers. */
  lemma StepKeepsInv(s: State, c: Call)
    requires Inv(s) && WellFormed(c) && Obeys(Abs(s), c)
    ensures Inv(Step(s, c).0) && Step(s, c).0.p == s.p
    ensures AbsStep(s.p, Abs(s), c) == (Abs(Step(s, c).0), Step(s, c).1)
  {
    hide InumAt, NameAt, Names, DirMap, BlockMap, Block, Entries, FilesOf, Dir, Step, AbsStep, Contents;
    StepRefines(s, c);
    RulesKeepHandles(s, c);
  }

  // ---- progress and isolation ----

  /** With at least as many blocks as inodes, a write through an open handle never fails. */
  lemma WriteNeverFails(s: State, h: int, buf: seq<byte>)
    requires Inv(s) && |buf| < TWO63 && IsOpen(s, h) && s.p.blocks >= s.p.inodes
    ensures InBounds(s, h) && Write(s, h, buf).1 >= 0
  {
    hide InumAt, NameAt, Names, DirMap, BlockMap, Block, Entries, FilesOf, Dir;
    HandleInBounds(s, h);
    ClipNeverWraps(s.p, |buf|, s.open[h].offset);
    if s.inodes[s.open[h].inum].size == 0 {
      NeverShortOfBlocks(s, s.open[h].inum);
    }
  }

  /** With `inodes - 1` directory entries, creating a valid name fails only for lack of inodes or handles. */
  lemma CreateFailsOnlyWhenFull(s: State, name: seq<byte>, mode: Mode)
    requires Storage(s) && NulFree(name) && ValidPath(name) && |name[1..]| < MAX_FILE_NAME && mode.creat
    requires s.p.DirSlots() >= s.p.inodes - 1
    ensures Open(s, name, mode).1 == -1 ==> FirstFree(s.inodeTaken) == -1 || FirstFree(s.openTaken) == -1
  {
    hide InumAt, NameAt, Names, DirMap, BlockMap, Block, Entries, FilesOf, Dir, Open;
    OpenRefines(s, name, mode);
    InodesFull(s);
    FileCount(s);
  }

  /**
   * Isolation on the flat array: a write through `h` changes no byte outside the `n` cells it
   * reports, which lie in the block of its own file; the directory and every other file's
   * block are other blocks.
   */
  lemma WriteIsIsolated(s: State, h: int, buf: seq<byte>)
    requires Inv(s) && |buf| < TWO63 && IsOpen(s, h)
    ensures InBounds(s, h)
    ensures var OpenFile(i, off) := s.open[h]; var (s', n) := Write(s, h, buf);
      n > 0 ==>
        && Storage(s') && Dir(s') == Dir(s) && i in FileInodes(s)
        && var at := s'.inodes[i].block * s.p.blockSize + off;
        && s'.inodes[i].block != s.inodes[ROOT].block
        && (forall x :: 0 <= x < |s.data| && !(at <= x < at + n) ==> s'.data[x] == s.data[x])
        && (forall j :: j in FileInodes(s) && j != i ==>
              Contents(s', j) == Contents(s, j) && (s.inodes[j].size > 0 ==> s.inodes[j].block != s'.inodes[i].block))
  {
    hide InumAt, NameAt, Names, DirMap, BlockMap, Block, Entries, FilesOf, Dir, Contents;
    HandleInBounds(s, h);
    var OpenFile(i, off) := s.open[h];
    ClipNeverWraps(s.p, |buf|, off);
    var n := Clip(s.p, |buf|, off);
    if n > 0 && BlockForWrite(s, i).1 != -1 {
      var src := buf[..n];
      WriteIsWritten(s, h, buf);
      WriteSplices(s, i, off, src);
      BlockFound(s, i);
      var w := Written(s, i, off, src);
      OpenTableIrrelevant(w, s.open[h := OpenFile(i, off + n)]);
      BlockStartIsProduct(w.inodes[i].block, s.p.blockSize);
      forall j | j in FileInodes(s) && j != i ensures Contents(Write(s, h, buf).0, j) == Contents(s, j) {
        WrittenElsewhere(s, i, off, src, j);
        SameBytesSameFile(w, Write(s, h, buf).0, j);
      }
    }
  }

  // ---- runs ----

  /** The concrete run of a rule-abiding sequence of calls. */
  ghost function Run(s: State, calls: seq<Call>): (r: (State, seq<Reply>))
    requires Inv(s) && ObeysAll(s.p, Abs(s), calls)
    ensures Inv(r.0) && r.0.p == s.p
    ensures (Abs(r.0), r.1) == AbsRun(s.p, Abs(s), calls)
  {
    if calls == [] then (s, []) else
    var (s1, replies) := Run(s, calls[..|calls| - 1]);
    StepKeepsInv(s1, calls[|calls| - 1]);
    var (s2, reply) := Step(s1, calls[|calls| - 1]);
    (s2, replies + [reply])
  }

  // ---- initialisation ----

  lemma {:induction false} InumbersCleared(s: State, k: nat)
    requires Shape(s) && s.p.blocks > 0 && k <= s.p.DirSlots()
    ensures forall j :: 0 <= j < s.p.DirSlots() ==>
      Entries(Block(ClearInumbers(s, k), 0))[j] ==
      if j < k then Entry(Entries(Block(s, 0))[j].name, -1) else Entries(Block(s, 0))[j]
  {
    hide Block, EntryAt;
    if k > 0 {
      InumbersCleared(s, k - 1);
      var t := ClearInumbers(s, k - 1);
      PokedBlock(t, 0, ENTRY_SIZE * (k - 1) + MAX_FILE_NAME, EncodeInt(-1));
      InumWritten(Block(t, 0), k - 1, -1);
    }
  }

  /**
   * `tfs_init` yields an intact, empty file system from whatever memory `malloc` returned: it
   * clears the inumbers, and the names it leaves behind are never compared with anything.
   */
  lemma InitIsEmpty(m: State)
    requires Shape(m)
    ensures Init(m).1 == 0 <==> m.p.inodes > 0 && m.p.blocks > 0
    ensures Init(m).1 == 0 ==>
      Inv(Init(m).0) && Init(m).0.p == m.p && Abs(Init(m).0) == Fs(map[], map[])
  {
    hide Block, EntryAt;
    if m.p.inodes > 0 && m.p.blocks > 0 {
      var s := Init(m).0;
      var s1 := s.(data := m.data);
      InumbersCleared(s1, m.p.DirSlots());
      assert RootOk(s) && Dir(s) == Entries(Block(s, 0));
      forall b | 0 <= b < s.p.blocks && s.blockTaken[b] ensures exists i :: Owns(s.inodes, s.inodeTaken, i, b) {
        assert Owns(s.inodes, s.inodeTaken, ROOT, b);
      }
      assert BlocksOk(s);
      assert FileInodes(s) == {};
      assert forall k :: 0 <= k < |Dir(s)| ==> !IsLive(Dir(s), k);
      assert Names(Dir(s)) == {};
    }
  }
}
