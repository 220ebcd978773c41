/**
 * The file system a client of fs/operations.h sees: a map from names to contents, and
 * open handles that are a name and a position. Inodes, blocks and directory slots do not
 * occur; what is left of them is when the tables run out, which the sizes of the maps decide.
 */
module AbstractFs {
  import opened Bytes
  import opened Directory
  import opened Inodes
  import opened TfsState

  type Files = map<seq<byte>, seq<byte>>
  datatype Handle = Handle(name: seq<byte>, offset: nat)
  datatype Fs = Fs(files: Files, handles: map<int, Handle>)

  datatype Call =
    | OpenCall(name: seq<byte>, mode: Mode)
    | CloseCall(h: int)
    | ReadCall(h: int, len: nat)
    | WriteCall(h: int, buf: seq<byte>)
    | UnlinkCall(name: seq<byte>)

  /** The returned value, and the bytes a read stores in its buffer. */
  datatype Reply = Reply(value: int, bytes: seq<byte>)

  ghost function NonEmpty(files: Files): set<seq<byte>> {
    set n | n in files && files[n] != []
  }

  /** The contents after `src` is written over position `off`. */
  function Splice(c: seq<byte>, off: nat, src: seq<byte>): (r: seq<byte>)
    requires off <= |c|
    ensures |r| == if off + |src| > |c| then off + |src| else |c|
    ensures r[..off] == c[..off] && r[off..off + |src|] == src
    ensures off + |src| < |c| ==> r[off + |src|..] == c[off + |src|..]
  {
    c[..off] + src + if off + |src| < |c| then c[off + |src|..] else []
  }

  /** Handles are handed out lowest number first. */
  function NextHandle(p: Params, a: Fs): int {
    FirstFree(seq(p.handles, h => h in a.handles))
  }

  function Grant(p: Params, a: Fs, name: seq<byte>, offset: nat): (Fs, Reply) {
    var h := NextHandle(p, a);
    if h == -1 then (a, Reply(-1, []))
    else (a.(handles := a.handles[h := Handle(name, offset)]), Reply(h, []))
  }

  /** Room for one more file: an inode besides the root's, and a directory entry. */
  predicate RoomFor(p: Params, files: Files)
    requires p.Ok()
  {
    |files| + 1 < p.inodes && |files| < p.DirSlots()
  }

  /** What `tfs_open` does to the files, and whether it gets as far as asking for a handle. */
  function OpenFiles(p: Params, files: Files, name: seq<byte>, mode: Mode): (r: (Files, bool))
    requires p.Ok()
    ensures r.1 ==> ValidPath(name) && name[1..] in r.0
    ensures !r.1 ==> r.0 == files
  {
    if !ValidPath(name) then (files, false) else
    var n := name[1..];
    if n in files then (if mode.trunc then files[n := []] else files, true)
    else if mode.creat && |n| < MAX_FILE_NAME && RoomFor(p, files) then (files[n := []], true)
    else (files, false)
  }

  ghost function AbsOpen(p: Params, a: Fs, name: seq<byte>, mode: Mode): (Fs, Reply)
    requires p.Ok()
  {
    var (files, found) := OpenFiles(p, a.files, name, mode);
    if !found then (a, Reply(-1, []))
    else Grant(p, a.(files := files), name[1..], if mode.append then |files[name[1..]]| else 0)
  }

  ghost function AbsWrite(p: Params, a: Fs, h: int, buf: seq<byte>): (Fs, Reply) {
    if h !in a.handles || a.handles[h].name !in a.files then (a, Reply(-1, [])) else
    var Handle(n, off) := a.handles[h];
    var c := a.files[n];
    var len := if |buf| + off > p.blockSize then p.blockSize - off else |buf|;
    if len <= 0 || off > |c| then (a, Reply(0, []))
    else if c == [] && 1 + |NonEmpty(a.files)| >= p.blocks then (a, Reply(-1, []))
    else (Fs(a.files[n := Splice(c, off, buf[..len])], a.handles[h := Handle(n, off + len)]), Reply(len, []))
  }

  function AbsRead(a: Fs, h: int, len: nat): (Fs, Reply) {
    if h !in a.handles || a.handles[h].name !in a.files then (a, Reply(-1, [])) else
    var Handle(n, off) := a.handles[h];
    var c := a.files[n];
    var end := if off + len < |c| then off + len else |c|;
    if off >= end then (a, Reply(0, []))
    else (a.(handles := a.handles[h := Handle(n, end)]), Reply(end - off, c[off..end]))
  }

  function AbsClose(a: Fs, h: int): (Fs, Reply) {
    if h !in a.handles then (a, Reply(-1, [])) else (a.(handles := a.handles - {h}), Reply(0, []))
  }

  function AbsUnlink(a: Fs, name: seq<byte>): (Fs, Reply) {
    if !ValidPath(name) || name[1..] !in a.files then (a, Reply(-1, []))
    else (a.(files := a.files - {name[1..]}), Reply(0, []))
  }

  ghost function AbsStep(p: Params, a: Fs, c: Call): (Fs, Reply)
    requires p.Ok()
  {
    match c
    case OpenCall(n, m) => AbsOpen(p, a, n, m)
    case CloseCall(h) => AbsClose(a, h)
    case ReadCall(h, len) => AbsRead(a, h, len)
    case WriteCall(h, buf) => AbsWrite(p, a, h, buf)
    case UnlinkCall(n) => AbsUnlink(a, n)
  }

  /** Names are C strings and a write's length fits the `ssize_t` it returns. */
  ghost predicate WellFormed(c: Call) {
    match c
    case OpenCall(n, _) => NulFree(n)
    case UnlinkCall(n) => NulFree(n)
    case WriteCall(_, buf) => |buf| < TWO63
    case _ => true
  }

  /** The usage rules: no unlink of an open file, no truncation under an advanced handle. */
  ghost predicate Obeys(a: Fs, c: Call) {
    match c
    case UnlinkCall(name) =>
      ValidPath(name) ==> forall h :: h in a.handles ==> a.handles[h].name != name[1..]
    case OpenCall(name, mode) =>
      mode.trunc && ValidPath(name) ==>
        forall h :: h in a.handles && a.handles[h].name == name[1..] ==> a.handles[h].offset == 0
    case _ => true
  }

  /** A run: the state after the calls, and their replies. */
  ghost function AbsRun(p: Params, a: Fs, calls: seq<Call>): (r: (Fs, seq<Reply>))
    requires p.Ok()
    ensures |r.1| == |calls|
  {
    if calls == [] then (a, []) else
    var (b, replies) := AbsRun(p, a, calls[..|calls| - 1]);
    var (c, reply) := AbsStep(p, b, calls[|calls| - 1]);
    (c, replies + [reply])
  }

  ghost predicate ObeysAll(p: Params, a: Fs, calls: seq<Call>)
    requires p.Ok()
  {
    calls != [] ==>
      var front := calls[..|calls| - 1];
      var last := calls[|calls| - 1];
      ObeysAll(p, a, front) && WellFormed(last) && Obeys(AbsRun(p, a, front).0, last)
  }
}
