/** Each building block keeps the storage layer, and what it does to the files. */
module TfsStorage {
  import opened Bytes
  import opened Directory
  import opened Inodes
  import opened TfsState
  import opened AbstractFs
  import opened TfsView

  /** No file shares the directory's block. */
  lemma RootBlockIsPrivate(s: State, j: int)
    requires Storage(s) && j in FileInodes(s) && s.inodes[j].size > 0
    ensures 0 <= s.inodes[j].block < s.p.blocks && s.inodes[j].block != s.inodes[ROOT].block
  {
    assert HasBlock(s.inodes, s.inodeTaken, j) && HasBlock(s.inodes, s.inodeTaken, ROOT);
  }

  lemma SizeIsShort(s: State, i: int)
    requires Storage(s) && Taken(s, i)
    ensures s.inodes[i].size <= s.p.blockSize
  {
  }

  lemma SameBytesSameFile(s: State, s': State, j: int)
    requires Shape(s) && Shape(s') && s'.data == s.data && s'.p == s.p
    requires 0 <= j < s.p.inodes
    requires s'.inodes[j] == s.inodes[j] || (s.inodes[j].size == 0 && s'.inodes[j].size == 0)
    ensures Contents(s', j) == Contents(s, j)
  {
  }

  lemma SameBlockSameFile(s: State, s': State, j: int)
    requires Shape(s) && Shape(s') && s'.p == s.p && 0 <= j < s.p.inodes && s'.inodes[j] == s.inodes[j]
    requires s.inodes[j].size > 0 && 0 <= s.inodes[j].block < s.p.blocks ==>
      Block(s', s.inodes[j].block) == Block(s, s.inodes[j].block)
    ensures Contents(s', j) == Contents(s, j)
  {
  }

  lemma TruncatedStorage(s: State, i: int)
    requires Storage(s) && i in FileInodes(s)
    ensures s.inodes[i].size > 0 ==> 0 <= s.inodes[i].block < s.p.blocks
    ensures Storage(Truncate(s, i)) && Dir(Truncate(s, i)) == Dir(s)
    ensures FileInodes(Truncate(s, i)) == FileInodes(s)
  {
    hide BlockMap, DirMap, Entries, Block;
    if s.inodes[i].size > 0 {
      RootBlockIsPrivate(s, i);
      var s' := Truncate(s, i);
      BlockReleased(s.inodes, s.inodeTaken, s.blockTaken, s.p.blockSize, s'.inodes, s'.inodeTaken, i);
      SameDataSameBlock(s, s', s.inodes[ROOT].block);
    }
  }

  /** Truncation empties the one file and gives its block back. */
  lemma TruncateEmpties(s: State, i: int)
    requires Storage(s) && i in FileInodes(s)
    ensures s.inodes[i].size > 0 ==> 0 <= s.inodes[i].block < s.p.blocks
    ensures Storage(Truncate(s, i)) && Dir(Truncate(s, i)) == Dir(s)
    ensures FilesOf(Truncate(s, i)) == FilesOf(s)[NameOf(s, i) := []]
    ensures FileInodes(Truncate(s, i)) == FileInodes(s)
  {
    hide InumAt, NameAt, Names, DirMap, Block, Entries;
    TruncatedStorage(s, i);
    DirIsOneToOne(Dir(s), FileInodes(s));
    forall j | j in FileInodes(s) && j != i ensures Contents(Truncate(s, i), j) == Contents(s, j) {
      SameBytesSameFile(s, Truncate(s, i), j);
    }
    OneFileChanged(s, Truncate(s, i), i);
  }

  /** A fresh inode leaves files and blocks as they were; the directory does not know it yet. */
  lemma FreshInode(s: State)
    requires Storage(s)
    ensures var (s1, n) := CreateFile(s);
      n != -1 ==>
        && n != ROOT && n !in FileInodes(s) && FileInodes(s1) == FileInodes(s) + {n}
        && RootOk(s1) && BlocksOk(s1) && Dir(s1) == Dir(s)
        && s1.inodes[n].size == 0 && s1.inodes[n].kind == File
  {
    var (s1, n) := CreateFile(s);
    if n != -1 {
      BlockKept(s.inodes, s.inodeTaken, s.blockTaken, s.p.blockSize, s1.inodes, s1.inodeTaken, n);
    }
  }

  lemma EnteredFile(s: State, k: int, sub: seq<byte>)
    requires Storage(s) && NameOk(sub) && sub !in Names(Dir(s))
    requires CreateFile(s).1 != -1 && k == FirstEntry(Dir(s), Empty) != -1
    requires RootOk(CreateFile(s).0)
    ensures var (s1, n) := CreateFile(s); var s2 := SetEntry(s1, k, sub, n);
      && Storage(s2) && Dir(s2) == Dir(s)[k := Entry(sub, n)]
      && FileInodes(s2) == FileInodes(s) + {n}
  {
    hide BlockMap, Block, DirMap, Names, InumAt, NameAt, Entries, FirstEntry;
    FreshInode(s);
    var (s1, n) := CreateFile(s);
    var s2 := SetEntry(s1, k, sub, n);
    var root := s1.inodes[ROOT].block;
    PokedBlock(s1, root, ENTRY_SIZE * k, EntryBytes(sub, n));
    EntryWritten(Block(s1, root), k, sub, n);
    EntryAdded(Dir(s), FileInodes(s), k, sub, n);
    assert FileInodes(s2) == FileInodes(s1);
  }

  lemma EnteredContents(s: State, k: int, sub: seq<byte>, j: int)
    requires Storage(s) && NameOk(sub) && j in FileInodes(s)
    requires CreateFile(s).1 != -1 && 0 <= k < |Dir(s)| && RootOk(CreateFile(s).0)
    ensures var (s1, n) := CreateFile(s); Contents(SetEntry(s1, k, sub, n), j) == Contents(s, j)
  {
    hide InumAt, NameAt, Names, DirMap, BlockMap, Entries, Block, Contents;
    FreshInode(s);
    var (s1, n) := CreateFile(s);
    if s.inodes[j].size > 0 {
      RootBlockIsPrivate(s, j);
      OtherBlock(s1, s1.inodes[ROOT].block, ENTRY_SIZE * k, EntryBytes(sub, n), s.inodes[j].block);
      SameDataSameBlock(s, s1, s.inodes[j].block);
    }
    SameBlockSameFile(s, SetEntry(s1, k, sub, n), j);
  }

  /** Creating a file adds an empty one under the new name and touches nothing else. */
  lemma CreateAdds(s: State, k: int, sub: seq<byte>)
    requires Storage(s) && NameOk(sub) && sub !in Names(Dir(s))
    requires CreateFile(s).1 != -1 && k == FirstEntry(Dir(s), Empty) != -1
    ensures RootOk(CreateFile(s).0) && Dir(CreateFile(s).0) == Dir(s)
    ensures var (s1, n) := CreateFile(s); var s2 := SetEntry(s1, k, sub, n);
      && Storage(s2) && FilesOf(s2) == FilesOf(s)[sub := []]
      && FileInodes(s2) == FileInodes(s) + {n} && n !in FileInodes(s) && s2.inodes[n].size == 0
      && Dir(s2) == Dir(s)[k := Entry(sub, n)]
  {
    hide InumAt, NameAt, Names, DirMap, BlockMap, Block, Entries, FilesOf;
    FreshInode(s);
    EnteredFile(s, k, sub);
    var (s1, n) := CreateFile(s);
    var s2 := SetEntry(s1, k, sub, n);
    forall j | j in FileInodes(s) ensures Contents(s2, j) == Contents(s, j) {
      EnteredContents(s, k, sub, j);
    }
    CreatedFiles(s, s2, k, sub, n);
  }

  lemma CreatedFiles(s: State, s2: State, k: int, sub: seq<byte>, n: int)
    requires Storage(s) && Storage(s2) && NameOk(sub) && sub !in Names(Dir(s))
    requires k == FirstEntry(Dir(s), Empty) != -1 && Dir(s2) == Dir(s)[k := Entry(sub, n)]
    requires FileInodes(s2) == FileInodes(s) + {n} && n !in FileInodes(s) && n != -1
    requires forall j :: j in FileInodes(s) ==> Contents(s2, j) == Contents(s, j)
    requires n in FileInodes(s2) && Contents(s2, n) == []
    ensures FilesOf(s2) == FilesOf(s)[sub := []]
  {
    hide InumAt, NameAt, Names, DirMap, BlockMap, Block, Entries, FilesOf, Contents, Dir, FileInodes;
    EntryAdded(Dir(s), FileInodes(s), k, sub, n);
    DirIsOneToOne(Dir(s), FileInodes(s));
    DirIsOneToOne(Dir(s2), FileInodes(s2));
    OneFileAdded(s, s2, sub, n);
  }

  /** A create that finds no directory entry gives its inode back. */
  lemma FailedCreateRestores(s: State)
    requires Storage(s) && CreateFile(s).1 != -1
    ensures var (s1, n) := CreateFile(s); var s2 := DeleteInode(s1, n);
      && Storage(s2) && Dir(s2) == Dir(s) && FilesOf(s2) == FilesOf(s)
      && s2 == s.(inodes := s2.inodes) && FileInodes(s2) == FileInodes(s)
      && forall i :: i in FileInodes(s) ==> s2.inodes[i] == s.inodes[i]
  {
    hide InumAt, NameAt, Names, DirMap, BlockMap, Entries, Contents, FilesOf;
    var (s1, n) := CreateFile(s);
    var s2 := DeleteInode(s1, n);
    FreshInode(s);
    assert s2.inodeTaken == s.inodeTaken;
    BlockKept(s.inodes, s.inodeTaken, s.blockTaken, s.p.blockSize, s2.inodes, s2.inodeTaken, n);
    assert FileInodes(s2) == FileInodes(s);
    assert RootOk(s2) && Dir(s2) == Dir(s);
    forall j | j in FileInodes(s) ensures Contents(s2, j) == Contents(s, j) {
      SameBytesSameFile(s, s2, j);
    }
    NoFileChanged(s, s2);
  }

  lemma DeletedInode(s: State, i: int)
    requires Storage(s) && i in FileInodes(s)
    ensures s.inodes[i].size > 0 ==> 0 <= s.inodes[i].block < s.p.blocks
    ensures var s1 := DeleteInode(s, i);
      RootOk(s1) && BlocksOk(s1) && Dir(s1) == Dir(s) && FileInodes(s1) == FileInodes(s) - {i}
  {
    hide BlockMap, DirMap, Entries, Block;
    if s.inodes[i].size > 0 { RootBlockIsPrivate(s, i); }
    var s1 := DeleteInode(s, i);
    if s.inodes[i].size > 0 {
      BlockReleased(s.inodes, s.inodeTaken, s.blockTaken, s.p.blockSize, s1.inodes, s1.inodeTaken, i);
    } else {
      BlockKept(s.inodes, s.inodeTaken, s.blockTaken, s.p.blockSize, s1.inodes, s1.inodeTaken, i);
    }
    assert FileInodes(s1) == FileInodes(s) - {i};
    SameDataSameBlock(s, s1, s.inodes[ROOT].block);
  }

  lemma ClearedEntry(s: State, sub: seq<byte>, i: int)
    requires Storage(s) && sub in Names(Dir(s)) && i == InumAt(Dir(s), sub)
    ensures i in FileInodes(s) && RootOk(DeleteInode(s, i))
    ensures var (s2, cleared) := ClearDirEntry(DeleteInode(s, i), sub); var k := FirstEntry(Dir(s), Named(sub));
      && cleared && 0 <= k < |Dir(s)| && Storage(s2)
      && s2 == SetEntry(DeleteInode(s, i), k, [], -1)
      && Dir(s2) == Dir(s)[k := Entry([], -1)] && FileInodes(s2) == FileInodes(s) - {i}
  {
    LookupByName(Dir(s), FileInodes(s), sub);
    DeletedInode(s, i);
    EntryCleared(Dir(s), FileInodes(s), sub);
    var s1 := DeleteInode(s, i);
    var k := FirstEntry(Dir(s), Named(sub));
    var s2 := SetEntry(s1, k, [], -1);
    var root := s1.inodes[ROOT].block;
    PokedBlock(s1, root, ENTRY_SIZE * k, EntryBytes([], -1));
    EntryWritten(Block(s1, root), k, [], -1);
    assert FileInodes(s2) == FileInodes(s1);
  }

  lemma ClearedContents(s: State, i: int, k: int, j: int)
    requires Storage(s) && i in FileInodes(s) && j in FileInodes(s) && 0 <= k < |Dir(s)|
    requires s.inodes[i].size > 0 ==> 0 <= s.inodes[i].block < s.p.blocks
    requires RootOk(DeleteInode(s, i))
    ensures Contents(SetEntry(DeleteInode(s, i), k, [], -1), j) == Contents(s, j)
  {
    hide InumAt, NameAt, Names, DirMap, BlockMap, Entries, Block, Contents;
    var s1 := DeleteInode(s, i);
    if s.inodes[j].size > 0 {
      RootBlockIsPrivate(s, j);
      OtherBlock(s1, s1.inodes[ROOT].block, ENTRY_SIZE * k, EntryBytes([], -1), s.inodes[j].block);
      SameDataSameBlock(s, s1, s.inodes[j].block);
    }
    SameBlockSameFile(s, SetEntry(s1, k, [], -1), j);
  }

  /** Unlinking removes exactly the named file. */
  lemma UnlinkRemoves(s: State, sub: seq<byte>, i: int)
    requires Storage(s) && sub in Names(Dir(s)) && i == InumAt(Dir(s), sub)
    ensures i in FileInodes(s) && RootOk(DeleteInode(s, i))
    ensures var (s2, cleared) := ClearDirEntry(DeleteInode(s, i), sub); var k := FirstEntry(Dir(s), Named(sub));
      && cleared && Storage(s2) && FilesOf(s2) == FilesOf(s) - {sub}
      && 0 <= k < |Dir(s)| && Dir(s2) == Dir(s)[k := Entry([], -1)] && FileInodes(s2) == FileInodes(s) - {i}
  {
    hide InumAt, NameAt, DirMap, Block, Entries, Contents;
    ClearedEntry(s, sub, i);
    EntryCleared(Dir(s), FileInodes(s), sub);
    var s2 := ClearDirEntry(DeleteInode(s, i), sub).0;
    var k := FirstEntry(Dir(s), Named(sub));
    DirIsOneToOne(Dir(s), FileInodes(s));
    DirIsOneToOne(Dir(s2), FileInodes(s2));
    forall j | j in FileInodes(s2) ensures Contents(s2, j) == Contents(s, j) {
      ClearedContents(s, i, k, j);
    }
    OneFileRemoved(s, s2, sub, i);
  }

  lemma BlockFound(s: State, i: int)
    requires Storage(s) && i in FileInodes(s)
    ensures var (s1, b) := BlockForWrite(s, i);
      b != -1 ==>
        && 0 <= b < s.p.blocks && s1.inodes[i] == s.inodes[i].(block := b)
        && b != s.inodes[ROOT].block
        && (forall j :: j in FileInodes(s) && j != i && s.inodes[j].size > 0 ==> s.inodes[j].block != b)
  {
    var (s1, b) := BlockForWrite(s, i);
    if b != -1 {
      assert HasBlock(s.inodes, s.inodeTaken, ROOT);
      forall j | j in FileInodes(s) && j != i && s.inodes[j].size > 0 ensures s.inodes[j].block != b {
        assert HasBlock(s.inodes, s.inodeTaken, j);
        assert s.inodes[i].size > 0 ==> HasBlock(s.inodes, s.inodeTaken, i);
      }
      assert s.inodes[i].size > 0 ==> HasBlock(s.inodes, s.inodeTaken, i);
    }
  }

  /** The storage layer after a write of `src` at position `off` of inode `i`. */
  ghost function Written(s: State, i: int, off: nat, src: seq<byte>): (r: State)
    requires Storage(s) && i in FileInodes(s) && BlockForWrite(s, i).1 != -1
    requires off <= s.inodes[i].size && off + |src| <= s.p.blockSize
  {
    BlockFound(s, i);
    var (s1, b) := BlockForWrite(s, i);
    var size := s.inodes[i].size;
    Poke(s1, b, off, src).(inodes := s1.inodes[i := s1.inodes[i].(
      size := if off + |src| > size then off + |src| else size)])
  }

  lemma WrittenStorage(s: State, i: int, off: nat, src: seq<byte>)
    requires Storage(s) && i in FileInodes(s) && BlockForWrite(s, i).1 != -1
    requires off <= s.inodes[i].size && off + |src| <= s.p.blockSize && |src| > 0
    ensures Shape(Written(s, i, off, src)) && Storage(Written(s, i, off, src))
    ensures Dir(Written(s, i, off, src)) == Dir(s)
    ensures FileInodes(Written(s, i, off, src)) == FileInodes(s)
  {
    hide BlockMap, DirMap, Entries, Block;
    SizeIsShort(s, i);
    BlockFound(s, i);
    var (s1, b) := BlockForWrite(s, i);
    var s' := Written(s, i, off, src);
    if s.inodes[i].size > 0 {
      BlockKept(s.inodes, s.inodeTaken, s.blockTaken, s.p.blockSize, s'.inodes, s'.inodeTaken, i);
    } else {
      BlockGained(s.inodes, s.inodeTaken, s.blockTaken, s.p.blockSize, s'.inodes, i, b);
    }
    var root := s.inodes[ROOT].block;
    OtherBlock(s1, b, off, src, root);
    SameDataSameBlock(s, s1, root);
    SameDataSameBlock(Poke(s1, b, off, src), s', root);
  }

  lemma WrittenElsewhere(s: State, i: int, off: nat, src: seq<byte>, j: int)
    requires Storage(s) && i in FileInodes(s) && BlockForWrite(s, i).1 != -1
    requires off <= s.inodes[i].size && off + |src| <= s.p.blockSize
    requires j in FileInodes(s) && j != i
    ensures Contents(Written(s, i, off, src), j) == Contents(s, j)
  {
    hide InumAt, NameAt, Names, DirMap, BlockMap, Entries, Block, Contents;
    BlockFound(s, i);
    var (s1, b) := BlockForWrite(s, i);
    var s' := Written(s, i, off, src);
    if s.inodes[j].size > 0 {
      RootBlockIsPrivate(s, j);
      OtherBlock(s1, b, off, src, s.inodes[j].block);
      SameDataSameBlock(s, s1, s.inodes[j].block);
      SameDataSameBlock(Poke(s1, b, off, src), s', s.inodes[j].block);
    }
    SameBlockSameFile(s, s', j);
  }

  /** A write splices the bytes into its own file. */
  lemma WrittenHere(s: State, i: int, off: nat, src: seq<byte>)
    requires Storage(s) && i in FileInodes(s) && BlockForWrite(s, i).1 != -1
    requires off <= s.inodes[i].size && off + |src| <= s.p.blockSize && |src| > 0
    ensures |Contents(s, i)| == s.inodes[i].size
    ensures Contents(Written(s, i, off, src), i) == Splice(Contents(s, i), off, src)
  {
    hide DirMap, Entries, Patch, Splice, BlockMap;
    FileLength(s, i);
    BlockFound(s, i);
    var (s1, b) := BlockForWrite(s, i);
    var s' := Written(s, i, off, src);
    PokedBlock(s1, b, off, src);
    assert Block(s', b) == Patch(Block(s, b), off, src);
    PatchedPrefix(Block(s, b), s.inodes[i].size, off, src);
  }

  lemma PatchedPrefix(blk: seq<byte>, size: nat, off: nat, src: seq<byte>)
    requires off <= size <= |blk| && off + |src| <= |blk|
    ensures var size' := if off + |src| > size then off + |src| else size;
      Patch(blk, off, src)[..size'] == Splice(blk[..size], off, src)
  {
  }

  /**
   * Isolation on the flat array: a write changes no byte outside its own `|src|` cells of
   * its own block, so the directory and every other file stay as they are.
   */
  lemma WriteSplices(s: State, i: int, off: nat, src: seq<byte>)
    requires Storage(s) && i in FileInodes(s) && BlockForWrite(s, i).1 != -1
    requires off <= s.inodes[i].size && off + |src| <= s.p.blockSize && |src| > 0
    ensures |Contents(s, i)| == s.inodes[i].size
    ensures var s' := Written(s, i, off, src);
      && Storage(s') && Dir(s') == Dir(s) && FileInodes(s') == FileInodes(s)
      && FilesOf(s') == FilesOf(s)[NameOf(s, i) := Splice(Contents(s, i), off, src)]
  {
    hide InumAt, NameAt, Names, DirMap, Block, Entries, Contents;
    WrittenStorage(s, i, off, src);
    WrittenHere(s, i, off, src);
    DirIsOneToOne(Dir(s), FileInodes(s));
    forall j | j in FileInodes(s) && j != i
      ensures Contents(Written(s, i, off, src), j) == Contents(s, j)
    {
      WrittenElsewhere(s, i, off, src, j);
    }
    OneFileChanged(s, Written(s, i, off, src), i);
  }
}
