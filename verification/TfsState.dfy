/**
 * TécnicoFS as values: the tables of fs/state.c, the flat data array and the
 * directory entries packed inside it, and what each operation of fs/operations.c
 * makes of them. The class in Tfs.dfy is proved to compute these functions.
 */
module TfsState {
  import opened Bytes
  import opened Directory
  import opened Inodes

  const ROOT := 0 // ROOT_DIR_INUM
  const SLASH: byte := 47

  datatype Params = Params(inodes: nat, blocks: nat, handles: nat, blockSize: nat) {
    /** Counts are returned as `int`, byte counts as `ssize_t`. */
    predicate Ok() {
      0 < blockSize < TWO63 && inodes < TWO31 && blocks < TWO31 && handles < TWO31
    }

    /** MAX_DIR_ENTRIES */
    function DirSlots(): nat
      requires blockSize > 0
    {
      blockSize / ENTRY_SIZE
    }
  }

  datatype OpenFile = OpenFile(inum: int, offset: nat)
  datatype Mode = Mode(creat: bool, trunc: bool, append: bool)

  /** The two modes the broker uses, TFS_O_CREAT and TFS_O_APPEND. */
  const CREATE := Mode(true, false, false)
  const APPEND := Mode(false, false, true)

  datatype State = State(
    p: Params,
    inodes: seq<Inode>, inodeTaken: seq<bool>,
    data: seq<byte>, blockTaken: seq<bool>,
    open: seq<OpenFile>, openTaken: seq<bool>)

  predicate Shape(s: State) {
    && s.p.Ok()
    && |s.inodes| == |s.inodeTaken| == s.p.inodes
    && |s.blockTaken| == s.p.blocks
    && |s.data| == BlockStart(s.p.blocks, s.p.blockSize)
    && |s.open| == |s.openTaken| == s.p.handles
  }

  // ---- the flat data array ----

  /** Where block `b` starts in the flat array: the product `b * size`. */
  function BlockStart(b: nat, size: nat): nat {
    if b == 0 then 0 else BlockStart(b - 1, size) + size
  }

  lemma {:induction false} BlockStartIsProduct(b: nat, size: nat)
    ensures BlockStart(b, size) == b * size
  {
    if b > 0 {
      BlockStartIsProduct(b - 1, size);
      assert b * size == (b - 1) * size + size;
    }
  }

  /** Blocks do not overlap: the later one starts after the earlier one has ended. */
  lemma {:induction false} BlocksApart(b: nat, c: nat, size: nat)
    requires b < c
    ensures BlockStart(b, size) + size <= BlockStart(c, size)
  {
    if b < c - 1 {
      BlocksApart(b, c - 1, size);
    }
  }

  /** The bytes `data_block_get(b)` points at. */
  function Block(s: State, b: int): (blk: seq<byte>)
    requires Shape(s) && 0 <= b < s.p.blocks
    ensures |blk| == s.p.blockSize
  {
    BlocksApart(b, s.p.blocks, s.p.blockSize);
    s.data[BlockStart(b, s.p.blockSize)..BlockStart(b, s.p.blockSize) + s.p.blockSize]
  }

  /** `memcpy(data_block_get(b) + off, src, |src|)`. */
  function Poke(s: State, b: int, off: nat, src: seq<byte>): (r: State)
    requires Shape(s) && 0 <= b < s.p.blocks && off + |src| <= s.p.blockSize
    ensures Shape(r) && r == s.(data := r.data)
  {
    BlocksApart(b, s.p.blocks, s.p.blockSize);
    s.(data := Patch(s.data, BlockStart(b, s.p.blockSize) + off, src))
  }

  /** A write inside one block patches that block... */
  lemma PokedBlock(s: State, b: int, off: nat, src: seq<byte>)
    requires Shape(s) && 0 <= b < s.p.blocks && off + |src| <= s.p.blockSize
    ensures Block(Poke(s, b, off, src), b) == Patch(Block(s, b), off, src)
  {
    BlocksApart(b, s.p.blocks, s.p.blockSize);
    PatchInside(s.data, BlockStart(b, s.p.blockSize), off, src, s.p.blockSize);
  }

  /** ...and leaves every other block alone. */
  lemma OtherBlock(s: State, b: int, off: nat, src: seq<byte>, c: int)
    requires Shape(s) && 0 <= b < s.p.blocks && off + |src| <= s.p.blockSize
    requires 0 <= c < s.p.blocks && c != b
    ensures Block(Poke(s, b, off, src), c) == Block(s, c)
  {
    var bs := s.p.blockSize;
    var lo, at := BlockStart(c, bs), BlockStart(b, bs);
    BlocksApart(b, s.p.blocks, bs);
    BlocksApart(c, s.p.blocks, bs);
    if c < b { BlocksApart(c, b, bs); } else { BlocksApart(b, c, bs); }
    PatchOutside(s.data, at + off, src, lo, lo + bs);
  }

  lemma SameDataSameBlock(s: State, s': State, b: int)
    requires Shape(s) && Shape(s') && s'.data == s.data && s'.p == s.p && 0 <= b < s.p.blocks
    ensures Block(s', b) == Block(s, b)
  {
  }

  // ---- the storage layer: inodes, blocks and the root directory ----

  predicate Taken(s: State, i: int)
    requires Shape(s)
  {
    0 <= i < s.p.inodes && s.inodeTaken[i]
  }

  ghost predicate RootOk(s: State)
    requires Shape(s)
  {
    && Taken(s, ROOT)
    && s.inodes[ROOT].kind == Kind.Directory
    && s.inodes[ROOT].size == s.p.blockSize
    && 0 <= s.inodes[ROOT].block < s.p.blocks
  }

  ghost predicate BlocksOk(s: State)
    requires Shape(s)
  {
    BlockMap(s.inodes, s.inodeTaken, s.blockTaken, s.p.blockSize)
  }

  /** The root directory, read out of the root inode's block. */
  function Dir(s: State): (dir: seq<Entry>)
    requires Shape(s) && RootOk(s)
    ensures |dir| == s.p.DirSlots()
  {
    Entries(Block(s, s.inodes[ROOT].block))
  }

  /** The inodes the directory has to account for. */
  ghost function FileInodes(s: State): set<int> {
    TakenSet(s.inodeTaken) - {ROOT}
  }

  /** The directory is a one-to-one map from names to the TAKEN non-root inodes. */
  ghost predicate DirOk(s: State)
    requires Shape(s) && RootOk(s)
  {
    && DirMap(Dir(s), FileInodes(s))
    && forall i :: i in FileInodes(s) ==> s.inodes[i].kind == File
  }

  ghost predicate Storage(s: State) {
    Shape(s) && RootOk(s) && BlocksOk(s) && DirOk(s)
  }

  // ---- the handle layer ----

  predicate IsOpen(s: State, h: int)
    requires Shape(s)
  {
    0 <= h < s.p.handles && s.openTaken[h]
  }

  /** An open handle names a live file and is not past its end. */
  predicate HandleOk(s: State, h: int)
    requires Shape(s) && IsOpen(s, h)
  {
    var f := s.open[h];
    Taken(s, f.inum) && f.inum != ROOT && f.offset <= s.inodes[f.inum].size
  }

  ghost predicate Handles(s: State)
    requires Shape(s)
  {
    forall h :: IsOpen(s, h) ==> HandleOk(s, h)
  }

  /** What `tfs_write` and `tfs_read` need of a handle to stay inside the tables. */
  predicate InBounds(s: State, h: int)
    requires Shape(s)
  {
    IsOpen(s, h) ==>
      var f := s.open[h];
      && 0 <= f.inum < s.p.inodes
      && f.offset <= s.p.blockSize
      && s.inodes[f.inum].size <= s.p.blockSize
      && (s.inodes[f.inum].size > 0 ==> 0 <= s.inodes[f.inum].block < s.p.blocks)
  }

  ghost predicate Inv(s: State) {
    Storage(s) && Handles(s)
  }

  // ---- operations ----

  /** `find_in_dir` on the root: the inumber bound to a name, or -1. */
  function FindInDir(s: State, sub: seq<byte>): (inum: int)
    requires Storage(s)
    ensures inum != -1 ==> Taken(s, inum) && inum != ROOT
    ensures inum != -1 && s.inodes[inum].size > 0 ==> 0 <= s.inodes[inum].block < s.p.blocks
  {
    LookupByName(Dir(s), FileInodes(s), sub);
    var inum := InumAt(Dir(s), sub);
    assert inum != -1 ==> inum in FileInodes(s) && HasBlock(s.inodes, s.inodeTaken, inum) == (s.inodes[inum].size > 0);
    inum
  }

  predicate ValidPath(name: seq<byte>) {
    |name| > 1 && name[0] == SLASH
  }

  function AddHandle(s: State, inum: int, offset: nat): (r: (State, int))
    requires Shape(s)
    ensures Shape(r.0) && r.0 == s.(open := r.0.open, openTaken := r.0.openTaken)
  {
    var h := FirstFree(s.openTaken);
    if h == -1 then (s, -1)
    else (s.(openTaken := s.openTaken[h := true], open := s.open[h := OpenFile(inum, offset)]), h)
  }

  /** `inode_create(T_FILE)` */
  function CreateFile(s: State): (r: (State, int))
    requires Shape(s)
    ensures Shape(r.0) && r.0 == s.(inodes := r.0.inodes, inodeTaken := r.0.inodeTaken)
  {
    var i := FirstFree(s.inodeTaken);
    if i == -1 then (s, -1)
    else (s.(inodeTaken := s.inodeTaken[i := true], inodes := s.inodes[i := Inode(File, 0, -1)]), i)
  }

  function FreeBlock(s: State, b: int): (r: State)
    requires Shape(s) && 0 <= b < s.p.blocks
    ensures Shape(r) && r == s.(blockTaken := r.blockTaken)
  {
    s.(blockTaken := s.blockTaken[b := false])
  }

  function DeleteInode(s: State, i: int): (r: State)
    requires Shape(s) && Taken(s, i)
    requires s.inodes[i].size > 0 ==> 0 <= s.inodes[i].block < s.p.blocks
    ensures Shape(r) && r == s.(blockTaken := r.blockTaken, inodeTaken := r.inodeTaken)
  {
    var s1 := if s.inodes[i].size > 0 then FreeBlock(s, s.inodes[i].block) else s;
    s1.(inodeTaken := s1.inodeTaken[i := false])
  }

  function Truncate(s: State, i: int): (r: State)
    requires Shape(s) && Taken(s, i)
    requires s.inodes[i].size > 0 ==> 0 <= s.inodes[i].block < s.p.blocks
    ensures Shape(r) && r == s.(blockTaken := r.blockTaken, inodes := r.inodes)
  {
    if s.inodes[i].size > 0 then
      FreeBlock(s, s.inodes[i].block).(inodes := s.inodes[i := s.inodes[i].(size := 0)])
    else s
  }

  /** Overwrites one entry of the root directory. */
  function SetEntry(s: State, k: int, name: seq<byte>, inum: int): (r: State)
    requires Shape(s) && RootOk(s) && 0 <= k < s.p.DirSlots()
    requires |name| < MAX_FILE_NAME && -TWO31 <= inum < TWO31
    ensures Shape(r) && r == s.(data := r.data)
  {
    Poke(s, s.inodes[ROOT].block, ENTRY_SIZE * k, EntryBytes(name, inum))
  }

  /** `add_dir_entry` on the root; the flag is false where the C code returns -1. */
  function AddDirEntry(s: State, sub: seq<byte>, inum: int): (r: (State, bool))
    requires Shape(s) && RootOk(s) && -TWO31 <= inum < TWO31
    ensures Shape(r.0) && r.0 == s.(data := r.0.data)
  {
    if |sub| == 0 || |sub| > MAX_FILE_NAME - 1 then (s, false) else
    var k := FirstEntry(Dir(s), Empty);
    if k == -1 then (s, false) else (SetEntry(s, k, sub, inum), true)
  }

  /** `clear_dir_entry` on the root: compares names without looking at inumbers. */
  function ClearDirEntry(s: State, sub: seq<byte>): (r: (State, bool))
    requires Shape(s) && RootOk(s)
    ensures Shape(r.0) && r.0 == s.(data := r.0.data)
  {
    var k := FirstEntry(Dir(s), Named(sub));
    if k == -1 then (s, false) else (SetEntry(s, k, [], -1), true)
  }

  function Open(s: State, name: seq<byte>, mode: Mode): (r: (State, int))
    requires Storage(s)
  {
    if !ValidPath(name) then (s, -1) else
    var inum := FindInDir(s, name[1..]);
    if inum >= 0 then
      var s1 := if mode.trunc then Truncate(s, inum) else s;
      AddHandle(s1, inum, if mode.append then s1.inodes[inum].size else 0)
    else if mode.creat then
      var (s1, n) := CreateFile(s);
      if n == -1 then (s, -1) else
      var (s2, added) := AddDirEntry(s1, name[1..], n);
      if !added then (DeleteInode(s2, n), -1) else AddHandle(s2, n, 0)
    else (s, -1)
  }

  function Close(s: State, h: int): (r: (State, int))
    requires Shape(s)
  {
    if !IsOpen(s, h) then (s, -1) else (s.(openTaken := s.openTaken[h := false]), 0)
  }

  /** `size_t` arithmetic wraps. */
  function Sub64(a: nat, b: nat): nat {
    (a - b) % TWO64
  }

  function Clip(p: Params, len: nat, off: nat): nat {
    if (len + off) % TWO64 > p.blockSize then Sub64(p.blockSize, off) else len
  }

  /** Inside the file the size test does not wrap: at most the rest of the block is written. */
  lemma ClipNeverWraps(p: Params, len: nat, off: nat)
    requires p.Ok() && len < TWO63 && off <= p.blockSize
    ensures Clip(p, len, off) == if len + off > p.blockSize then p.blockSize - off else len
  {
  }

  /** A handle that is not past the end reads what is left of the file, at most `len` bytes. */
  lemma ReadNeverWraps(size: nat, off: nat)
    requires off <= size < TWO64
    ensures Sub64(size, off) == size - off
  {
  }

  /** Finds the block a write goes to, allocating one for an empty file. */
  function BlockForWrite(s: State, i: int): (r: (State, int))
    requires Shape(s) && 0 <= i < s.p.inodes
    ensures Shape(r.0) && r.0 == s.(blockTaken := r.0.blockTaken, inodes := r.0.inodes)
  {
    if s.inodes[i].size > 0 then (s, s.inodes[i].block) else
    var b := FirstFree(s.blockTaken);
    if b == -1 then (s, -1)
    else (s.(blockTaken := s.blockTaken[b := true], inodes := s.inodes[i := s.inodes[i].(block := b)]), b)
  }

  /** Advances a handle and extends the file under it if need be. */
  function Advance(s: State, h: int, n: nat): (r: State)
    requires Shape(s) && IsOpen(s, h) && 0 <= s.open[h].inum < s.p.inodes
    ensures Shape(r) && r == s.(open := r.open, inodes := r.inodes)
  {
    var OpenFile(i, off) := s.open[h];
    var ino := s.inodes[i];
    s.(open := s.open[h := OpenFile(i, off + n)],
       inodes := s.inodes[i := ino.(size := if off + n > ino.size then off + n else ino.size)])
  }

  function Write(s: State, h: int, buf: seq<byte>): (r: (State, int))
    requires Shape(s) && InBounds(s, h) && |buf| < TWO63
  {
    if !IsOpen(s, h) then (s, -1) else
    var OpenFile(i, off) := s.open[h];
    ClipNeverWraps(s.p, |buf|, off);
    var n: int := Clip(s.p, |buf|, off);
    if n == 0 then (s, 0) else
    var (s1, b) := BlockForWrite(s, i);
    if b == -1 then (s, -1) else
    (Advance(Poke(s1, b, off, buf[..n]), h, n), n)
  }

  function Read(s: State, h: int, len: nat): (r: (State, int, seq<byte>))
    requires Shape(s) && InBounds(s, h)
    requires IsOpen(s, h) ==> s.open[h].offset <= s.inodes[s.open[h].inum].size
  {
    if !IsOpen(s, h) then (s, -1, []) else
    var OpenFile(i, off) := s.open[h];
    var rest := Sub64(s.inodes[i].size, off);
    var n: int := if rest > len then len else rest;
    if n == 0 then (s, 0, []) else
    (s.(open := s.open[h := OpenFile(i, off + n)]), n, Block(s, s.inodes[i].block)[off..off + n])
  }

  function Unlink(s: State, target: seq<byte>): (r: (State, int))
    requires Storage(s)
  {
    if !ValidPath(target) then (s, -1) else
    var inum := FindInDir(s, target[1..]);
    if inum == -1 then (s, -1) else
    var (s1, cleared) := ClearDirEntry(DeleteInode(s, inum), target[1..]);
    (s1, if cleared then 0 else -1)
  }

  /** `tfs_init` on the tables `malloc` returned, whatever they hold. */
  function Init(m: State): (r: (State, int))
    requires Shape(m)
  {
    var s := m.(inodeTaken := seq(m.p.inodes, _ => false), blockTaken := seq(m.p.blocks, _ => false),
                openTaken := seq(m.p.handles, _ => false));
    if m.p.inodes == 0 then (s, -1)
    else if m.p.blocks == 0 then (s.(inodes := s.inodes[0 := Inode(Kind.Directory, 0, -1)]), -1)
    else
      var s1 := s.(inodeTaken := s.inodeTaken[0 := true], blockTaken := s.blockTaken[0 := true],
                   inodes := s.inodes[0 := Inode(Kind.Directory, m.p.blockSize, 0)]);
      (ClearInumbers(s1, m.p.DirSlots()), 0)
  }

  /** The first `k` entries of block 0 get inumber -1; their names stay as they were. */
  function ClearInumbers(s: State, k: nat): (r: State)
    requires Shape(s) && s.p.blocks > 0 && k <= s.p.DirSlots()
    ensures Shape(r) && r == s.(data := r.data)
  {
    if k == 0 then s
    else Poke(ClearInumbers(s, k - 1), 0, ENTRY_SIZE * (k - 1) + MAX_FILE_NAME, EncodeInt(-1))
  }
}
