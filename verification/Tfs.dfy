/**
 * TécnicoFS as it is written: static tables and bitmaps scanned by loops and updated in
 * place, and one flat byte array that holds file contents and directory entries alike.
 * Every method is proved to compute the function of the same name in TfsState.dfy, and on
 * the way that no ALWAYS_ASSERT of fs/state.c and fs/operations.c can fire.
 */
module TecnicoFs {
  import opened Bytes
  import opened Directory
  import opened Inodes
  import opened TfsState
  import opened TfsStorage
  import S = TfsState

  class Tfs {
    const p: Params
    const inodes: array<Inode>
    const inodeTaken: array<bool>
    const data: array<byte>
    const blockTaken: array<bool>
    const open: array<OpenFile>
    const openTaken: array<bool>

    ghost function Memory(): set<object> {
      {inodes, inodeTaken, data, blockTaken, open, openTaken}
    }

    ghost function View(): State
      reads inodes, inodeTaken, data, blockTaken, open, openTaken
    {
      State(p, inodes[..], inodeTaken[..], data[..], blockTaken[..], open[..], openTaken[..])
    }

    /** The tables have the sizes `state_init` gave them and do not overlap. */
    ghost predicate Ready() {
      && p.Ok()
      && inodes.Length == inodeTaken.Length == p.inodes
      && blockTaken.Length == p.blocks
      && data.Length == BlockStart(p.blocks, p.blockSize)
      && open.Length == openTaken.Length == p.handles
      && inodeTaken != blockTaken && inodeTaken != openTaken && blockTaken != openTaken
    }

    /** The allocations of `state_init`; `memory` is what `malloc` returned for the data blocks. */
    constructor (p: Params, memory: seq<byte>)
      requires p.Ok() && |memory| == BlockStart(p.blocks, p.blockSize)
      ensures Ready() && this.p == p && data[..] == memory
      ensures fresh(Memory())
    {
      this.p := p;
      inodes := new Inode[p.inodes];
      inodeTaken := new bool[p.inodes];
      data := new byte[|memory|](i requires 0 <= i < |memory| => memory[i]);
      blockTaken := new bool[p.blocks];
      open := new OpenFile[p.handles];
      openTaken := new bool[p.handles];
    }

    // ---- fs/state.c ----

    method ScanForFree(table: array<bool>) returns (r: int)
      ensures r == FirstFree(table[..])
    {
      var i := 0;
      while i < table.Length
        invariant 0 <= i <= table.Length
        invariant forall j :: 0 <= j < i ==> table[j]
      {
        if !table[i] {
          assert !table[..][i];
          return i;
        }
        i := i + 1;
      }
      assert forall j :: 0 <= j < |table[..]| ==> table[..][j];
      return -1;
    }

    /** `inode_create(T_FILE)` */
    method InodeCreate() returns (inumber: int)
      requires Ready()
      modifies inodes, inodeTaken
      ensures (View(), inumber) == CreateFile(old(View()))
    {
      inumber := ScanForFree(inodeTaken);
      if inumber != -1 {
        inodeTaken[inumber] := true;
        inodes[inumber] := Inode(File, 0, -1);
      }
    }

    method DataBlockAlloc() returns (b: int)
      requires Ready()
      modifies blockTaken
      ensures b == FirstFree(old(blockTaken[..]))
      ensures blockTaken[..] == if b == -1 then old(blockTaken[..]) else old(blockTaken[..])[b := true]
    {
      b := ScanForFree(blockTaken);
      if b != -1 {
        blockTaken[b] := true;
      }
    }

    method DataBlockFree(b: int)
      requires Ready() && 0 <= b < p.blocks
      modifies blockTaken
      ensures View() == FreeBlock(old(View()), b)
    {
      blockTaken[b] := false;
    }

    method InodeDelete(inumber: int)
      requires Ready() && Taken(View(), inumber)
      requires inodes[inumber].size > 0 ==> 0 <= inodes[inumber].block < p.blocks
      modifies blockTaken, inodeTaken
      ensures View() == DeleteInode(old(View()), inumber)
    {
      if inodes[inumber].size > 0 {
        DataBlockFree(inodes[inumber].block);
      }
      inodeTaken[inumber] := false;
    }

    method AddToOpenFileTable(inumber: int, offset: nat) returns (h: int)
      requires Ready()
      modifies open, openTaken
      ensures (View(), h) == AddHandle(old(View()), inumber, offset)
    {
      h := ScanForFree(openTaken);
      if h != -1 {
        openTaken[h] := true;
        open[h] := OpenFile(inumber, offset);
      }
    }

    /** `data_block_get`: the index of the first byte of a block. */
    method DataBlockGet(b: int) returns (at: nat)
      requires Ready() && 0 <= b < p.blocks
      ensures at == BlockStart(b, p.blockSize) && at + p.blockSize <= data.Length
    {
      BlockStartIsProduct(b, p.blockSize);
      BlocksApart(b, p.blocks, p.blockSize);
      at := b * p.blockSize;
    }

    /** Where entry `k` of the root directory lies in the data array. */
    ghost function EntryPos(k: nat): nat
      requires Ready() && RootOk(View())
      reads inodes, inodeTaken, data, blockTaken, open, openTaken
    {
      BlockStart(View().inodes[ROOT].block, p.blockSize) + ENTRY_SIZE * k
    }

    /** Reading an entry's fields at their addresses gives the entry. */
    lemma EntryInMemory(k: nat)
      requires Ready() && RootOk(View()) && k < p.DirSlots()
      ensures EntryPos(k) + ENTRY_SIZE <= data.Length
      ensures var at := EntryPos(k);
        Dir(View())[k] ==
        Entry(CStr(data[at..at + MAX_FILE_NAME]), DecodeInt(data[at + MAX_FILE_NAME..at + ENTRY_SIZE]))
    {
      hide CStr, DecodeInt, BlockStart;
      var lo := BlockStart(inodes[ROOT].block, p.blockSize);
      var slot := ENTRY_SIZE * k;
      BlocksApart(inodes[ROOT].block, p.blocks, p.blockSize);
      SliceOfSlice(data[..], lo, p.blockSize, slot, slot + MAX_FILE_NAME);
      SliceOfSlice(data[..], lo, p.blockSize, slot + MAX_FILE_NAME, slot + ENTRY_SIZE);
    }

    /** Both comparisons at a terminated entry's address compare its name. */
    lemma EntryCompared(k: nat, sub: seq<byte>)
      requires Ready() && RootOk(View()) && k < p.DirSlots() && NulFree(sub)
      requires |Dir(View())[k].name| < MAX_FILE_NAME
      ensures EntryPos(k) + ENTRY_SIZE <= data.Length
      ensures StrncmpEqual(data[EntryPos(k)..], sub) <==> Dir(View())[k].name == sub
      ensures StrcmpEqual(data[EntryPos(k)..], sub) <==> Dir(View())[k].name == sub
    {
      hide Dir, CStr, DecodeInt, StrncmpEqual, StrcmpEqual, EntryPos;
      EntryInMemory(k);
      PrefixOfTail(data[..], EntryPos(k), MAX_FILE_NAME);
      assert data[..][EntryPos(k)..] == data[EntryPos(k)..];
      ComparisonsAgree(data[EntryPos(k)..], sub);
    }

    /** The loop of `find_in_dir`: skips free entries, compares the others with `strncmp`. */
    method FindInDir(sub: seq<byte>) returns (inumber: int)
      requires Ready() && RootOk(View()) && NulFree(sub)
      requires forall k :: IsLive(Dir(View()), k) ==> |Dir(View())[k].name| < MAX_FILE_NAME
      ensures inumber == InumAt(Dir(View()), sub)
    {
      hide Dir, CStr, DecodeInt, StrncmpEqual;
      var base := DataBlockGet(inodes[ROOT].block);
      ghost var dir := Dir(View());
      var i := 0;
      while i < p.DirSlots()
        invariant 0 <= i <= p.DirSlots()
        invariant forall k :: 0 <= k < i ==> !Live(sub).Matches(dir[k])
      {
        var at := base + ENTRY_SIZE * i;
        EntryInMemory(i);
        var found := DecodeInt(data[at + MAX_FILE_NAME..at + ENTRY_SIZE]);
        if found != -1 {
          assert IsLive(dir, i);
          EntryCompared(i, sub);
          if StrncmpEqual(data[at..], sub) {
            assert Live(sub).Matches(dir[i]);
            return found;
          }
        }
        i := i + 1;
      }
      return -1;
    }

    /** The loop of `add_dir_entry`: fills the first entry whose inumber is -1. */
    method AddDirEntry(sub: seq<byte>, inumber: int) returns (added: bool)
      requires Ready() && RootOk(View()) && -TWO31 <= inumber < TWO31
      modifies data
      ensures (View(), added) == S.AddDirEntry(old(View()), sub, inumber)
    {
      hide Dir, CStr, DecodeInt, EntryBytes, Patch;
      if |sub| == 0 || |sub| > MAX_FILE_NAME - 1 {
        return false;
      }
      var base := DataBlockGet(inodes[ROOT].block);
      ghost var dir := Dir(View());
      var i := 0;
      while i < p.DirSlots()
        invariant 0 <= i <= p.DirSlots()
        invariant forall k :: 0 <= k < i ==> !Empty.Matches(dir[k])
        invariant unchanged(data)
      {
        var at := base + ENTRY_SIZE * i;
        EntryInMemory(i);
        if DecodeInt(data[at + MAX_FILE_NAME..at + ENTRY_SIZE]) == -1 {
          assert Empty.Matches(dir[i]);
          CopyIn(data, at, EntryBytes(sub, inumber));
          return true;
        }
        i := i + 1;
      }
      return false;
    }

    /** The loop of `clear_dir_entry`: `strcmp` on every entry, free or not, up to the first match. */
    method ClearDirEntry(sub: seq<byte>) returns (cleared: bool)
      requires Ready() && RootOk(View()) && NulFree(sub) && ComparedOk(Dir(View()), sub)
      modifies data
      ensures (View(), cleared) == S.ClearDirEntry(old(View()), sub)
    {
      hide Dir, CStr, DecodeInt, EntryBytes, Patch, StrcmpEqual, BlockStart, FirstEntry, InumAt, Poke;
      var base := DataBlockGet(inodes[ROOT].block);
      ghost var dir := Dir(View());
      var i := 0;
      while i < p.DirSlots()
        invariant 0 <= i <= p.DirSlots()
        invariant forall k :: 0 <= k < i ==> !Named(sub).Matches(dir[k])
        invariant unchanged(data)
      {
        EntryCompared(i, sub);
        if StrcmpEqual(data[base + ENTRY_SIZE * i..], sub) {
          assert Named(sub).Matches(dir[i]);
          PokeBlock(inodes[ROOT].block, ENTRY_SIZE * i, EntryBytes([], -1));
          return true;
        }
        i := i + 1;
      }
      return false;
    }

    // ---- fs/operations.c ----

    /** `tfs_init`, after the allocations. */
    method TfsInit() returns (r: int)
      requires Ready()
      modifies inodes, inodeTaken, data, blockTaken, openTaken
      ensures (View(), r) == Init(old(View()))
    {
      ClearTable(inodeTaken);
      ClearTable(blockTaken);
      ClearTable(openTaken);
      r := CreateRoot();
    }

    method ClearTable(table: array<bool>)
      modifies table
      ensures table[..] == seq(table.Length, _ => false)
    {
      var i := 0;
      while i < table.Length
        invariant 0 <= i <= table.Length
        invariant forall j :: 0 <= j < i ==> !table[j]
      {
        table[i] := false;
        i := i + 1;
      }
    }

    /** `inode_create(T_DIRECTORY)` on empty tables. */
    method CreateRoot() returns (root: int)
      requires Ready()
      requires inodeTaken[..] == seq(p.inodes, _ => false) && blockTaken[..] == seq(p.blocks, _ => false)
      requires openTaken[..] == seq(p.handles, _ => false)
      modifies inodes, inodeTaken, data, blockTaken
      ensures (View(), root) == Init(old(View()))
    {
      hide ClearInumbers;
      assert p.inodes > 0 ==> !inodeTaken[..][0];
      root := ScanForFree(inodeTaken);
      if root == -1 {
        return;
      }
      inodeTaken[root] := true;
      assert p.blocks > 0 ==> !blockTaken[..][0];
      var b := DataBlockAlloc();
      if b == -1 {
        inodes[root] := Inode(Kind.Directory, 0, -1);
        InodeDelete(root);
        assert inodeTaken[..] == old(inodeTaken[..]);
        assert blockTaken[..] == old(blockTaken[..]);
        return -1;
      }
      inodes[root] := Inode(Kind.Directory, p.blockSize, b);
      LabelEntries();
    }

    /** The loop of `inode_create(T_DIRECTORY)`: labels every entry of block 0 with inumber -1. */
    method LabelEntries()
      requires Ready() && p.blocks > 0
      modifies data
      ensures View() == ClearInumbers(old(View()), p.DirSlots())
    {
      hide Poke;
      var i := 0;
      while i < p.DirSlots()
        invariant 0 <= i <= p.DirSlots()
        invariant View() == ClearInumbers(old(View()), i)
      {
        PokeBlock(0, ENTRY_SIZE * i + MAX_FILE_NAME, EncodeInt(-1));
        i := i + 1;
      }
    }

    method TfsLookup(name: seq<byte>) returns (inumber: int)
      requires Ready() && Storage(View()) && NulFree(name)
      ensures inumber == if ValidPath(name) then S.FindInDir(View(), name[1..]) else -1
    {
      if !ValidPath(name) {
        return -1;
      }
      inumber := FindInDir(name[1..]);
    }

    method TfsOpen(name: seq<byte>, mode: Mode) returns (h: int)
      requires Ready() && Storage(View()) && NulFree(name)
      modifies Memory()
      ensures (View(), h) == Open(old(View()), name, mode)
    {
      hide Dir, BlockMap, DirMap, Names, InumAt, S.AddDirEntry, BlockStart, FirstFree;
      if !ValidPath(name) {
        return -1;
      }
      var inum := TfsLookup(name);
      var offset: nat := 0;
      if inum >= 0 {
        if mode.trunc {
          TruncateInode(inum);
        }
        if mode.append {
          offset := inodes[inum].size;
        }
      } else if mode.creat {
        inum := InodeCreate();
        if inum == -1 {
          return -1;
        }
        var added := AddDirEntry(name[1..], inum);
        if !added {
          InodeDelete(inum);
          return -1;
        }
      } else {
        return -1;
      }
      h := AddToOpenFileTable(inum, offset);
    }

    method TruncateInode(inum: int)
      requires Ready() && Taken(View(), inum)
      requires inodes[inum].size > 0 ==> 0 <= inodes[inum].block < p.blocks
      modifies inodes, blockTaken
      ensures View() == Truncate(old(View()), inum)
    {
      if inodes[inum].size > 0 {
        DataBlockFree(inodes[inum].block);
        inodes[inum] := inodes[inum].(size := 0);
      }
    }

    method TfsClose(h: int) returns (r: int)
      requires Ready()
      modifies openTaken
      ensures (View(), r) == Close(old(View()), h)
    {
      if !(0 <= h < p.handles && openTaken[h]) {
        return -1;
      }
      openTaken[h] := false;
      r := 0;
    }

    /** `memcpy(data_block_get(b) + off, src, |src|)` */
    method PokeBlock(b: int, off: nat, src: seq<byte>)
      requires Ready() && 0 <= b < p.blocks && off + |src| <= p.blockSize
      modifies data
      ensures View() == Poke(old(View()), b, off, src)
    {
      var base := DataBlockGet(b);
      CopyIn(data, base + off, src);
    }

    /** The block a write goes to, allocated if the file is empty. */
    method BlockOf(inum: int) returns (b: int)
      requires Ready() && 0 <= inum < p.inodes
      modifies inodes, blockTaken
      ensures (View(), b) == BlockForWrite(old(View()), inum)
    {
      b := inodes[inum].block;
      if inodes[inum].size == 0 {
        b := DataBlockAlloc();
        if b != -1 {
          inodes[inum] := inodes[inum].(block := b);
        }
      }
    }

    method MoveHandle(h: int, n: nat)
      requires Ready() && IsOpen(View(), h) && 0 <= open[h].inum < p.inodes
      modifies inodes, open
      ensures View() == Advance(old(View()), h, n)
    {
      var file := open[h];
      open[h] := OpenFile(file.inum, file.offset + n);
      if open[h].offset > inodes[file.inum].size {
        inodes[file.inum] := inodes[file.inum].(size := open[h].offset);
      }
    }

    method TfsWrite(h: int, buffer: seq<byte>) returns (n: int)
      requires Ready() && InBounds(View(), h) && |buffer| < TWO63
      modifies inodes, data, blockTaken, open
      ensures (View(), n) == Write(old(View()), h, buffer)
    {
      hide Poke, Advance, BlockForWrite;
      if !(0 <= h < p.handles && openTaken[h]) {
        return -1;
      }
      var file := open[h];
      ClipNeverWraps(p, |buffer|, file.offset);
      var toWrite := |buffer|;
      if (toWrite + file.offset) % TWO64 > p.blockSize {
        toWrite := (p.blockSize - file.offset) % TWO64;
      }
      if toWrite > 0 {
        BlockIsInBounds(file.inum);
        var b := BlockOf(file.inum);
        if b == -1 {
          return -1;
        }
        PokeBlock(b, file.offset, buffer[..toWrite]);
        MoveHandle(h, toWrite);
      }
      n := toWrite;
    }

    lemma BlockIsInBounds(inum: int)
      requires Ready() && 0 <= inum < p.inodes
      requires inodes[inum].size > 0 ==> 0 <= inodes[inum].block < p.blocks
      ensures var (s1, b) := BlockForWrite(View(), inum);
        (b == -1 ==> s1 == View()) && (b != -1 ==> 0 <= b < p.blocks)
    {
    }

    /** `memcpy(buffer, &data[at], n)` */
    method CopyOut(at: nat, n: nat, buffer: array<byte>)
      requires at + n <= data.Length && n <= buffer.Length && buffer != data
      modifies buffer
      ensures buffer[..] == data[at..at + n] + old(buffer[..])[n..]
    {
      var i := 0;
      while i < n
        invariant 0 <= i <= n
        invariant forall j :: 0 <= j < i ==> buffer[j] == data[at + j]
        invariant forall j :: i <= j < buffer.Length ==> buffer[j] == old(buffer[j])
      {
        buffer[i] := data[at + i];
        i := i + 1;
      }
    }

    lemma BlockInMemory(b: int, off: nat, n: nat)
      requires Ready() && 0 <= b < p.blocks && off + n <= p.blockSize
      ensures var at := BlockStart(b, p.blockSize) + off;
        at + n <= data.Length && Block(View(), b)[off..off + n] == data[at..at + n]
    {
      hide BlockStart;
      BlocksApart(b, p.blocks, p.blockSize);
      var all := data[..];
      SliceOfSlice(all, BlockStart(b, p.blockSize), p.blockSize, off, off + n);
    }

    /** `memcpy(buffer, data_block_get(b) + off, n)` */
    method CopyFromBlock(b: int, off: nat, n: nat, buffer: array<byte>)
      requires Ready() && 0 <= b < p.blocks && off + n <= p.blockSize && n <= buffer.Length && buffer != data
      modifies buffer
      ensures buffer[..] == Block(View(), b)[off..off + n] + old(buffer[..])[n..]
    {
      hide BlockStart, Block;
      var base := DataBlockGet(b);
      BlockInMemory(b, off, n);
      CopyOut(base + off, n, buffer);
    }

    /** `tfs_read` into the caller's buffer. */
    method TfsRead(h: int, buffer: array<byte>, len: nat) returns (n: int)
      requires Ready() && InBounds(View(), h) && len <= buffer.Length && buffer != data
      requires IsOpen(View(), h) ==> open[h].offset <= inodes[open[h].inum].size
      modifies open, buffer
      ensures var (s', v, bytes) := Read(old(View()), h, len);
        View() == s' && n == v && |bytes| <= buffer.Length && buffer[..] == bytes + old(buffer[..])[|bytes|..]
    {
      hide BlockStart, Block;
      if !(0 <= h < p.handles && openTaken[h]) {
        return -1;
      }
      var file := open[h];
      ReadNeverWraps(inodes[file.inum].size, file.offset);
      var toRead := (inodes[file.inum].size - file.offset) % TWO64;
      if toRead > len {
        toRead := len;
      }
      if toRead > 0 {
        CopyFromBlock(inodes[file.inum].block, file.offset, toRead, buffer);
        open[h] := OpenFile(file.inum, file.offset + toRead);
      }
      n := toRead;
    }

    method TfsUnlink(target: seq<byte>) returns (r: int)
      requires Ready() && Storage(View()) && NulFree(target)
      modifies inodeTaken, blockTaken, data
      ensures (View(), r) == Unlink(old(View()), target)
    {
      hide Dir, BlockMap, DirMap, S.ClearDirEntry;
      if !ValidPath(target) {
        return -1;
      }
      var inum := TfsLookup(target);
      if inum == -1 {
        return -1;
      }
      LookupByName(Dir(View()), FileInodes(View()), target[1..]);
      LiveNameIsComparedOk(Dir(View()), FileInodes(View()), target[1..]);
      DeletedInode(View(), inum);
      InodeDelete(inum);
      var cleared := ClearDirEntry(target[1..]);
      r := if cleared then 0 else -1;
    }
  }
}
