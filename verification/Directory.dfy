/**
 * The root directory: `dir_entry_t` records packed in one block, the scans over them, and
 * what makes the entries a one-to-one map between names and inodes.
 */
module Directory {
  import opened Bytes
  import opened Counting

  const MAX_FILE_NAME := 40
  const ENTRY_SIZE := 44 // sizeof(dir_entry_t): the name, then a 32-bit inumber

  datatype Entry = Entry(name: seq<byte>, inum: int)

  // ---- entries inside a block ----

  function EntryAt(blk: seq<byte>, k: nat): Entry
    requires ENTRY_SIZE * k + ENTRY_SIZE <= |blk|
  {
    var at := ENTRY_SIZE * k;
    Entry(CStr(blk[at..at + MAX_FILE_NAME]), DecodeInt(blk[at + MAX_FILE_NAME..at + ENTRY_SIZE]))
  }

  function Entries(blk: seq<byte>): (dir: seq<Entry>)
    ensures |dir| == |blk| / ENTRY_SIZE
    ensures forall k :: 0 <= k < |dir| ==> dir[k] == EntryAt(blk, k)
  {
    seq(|blk| / ENTRY_SIZE, k requires 0 <= k < |blk| / ENTRY_SIZE => EntryAt(blk, k))
  }

  /** `strncpy` of a name into a 40-byte field pads with NULs; the inumber follows. */
  function EntryBytes(name: seq<byte>, inum: int): (b: seq<byte>)
    requires |name| < MAX_FILE_NAME && -TWO31 <= inum < TWO31
    ensures |b| == ENTRY_SIZE
  {
    name + Zeros(MAX_FILE_NAME - |name|) + EncodeInt(inum)
  }

  lemma EntryWritten(blk: seq<byte>, k: nat, name: seq<byte>, inum: int)
    requires k < |blk| / ENTRY_SIZE
    requires NulFree(name) && |name| < MAX_FILE_NAME && -TWO31 <= inum < TWO31
    ensures Entries(Patch(blk, ENTRY_SIZE * k, EntryBytes(name, inum))) == Entries(blk)[k := Entry(name, inum)]
  {
    hide Patch, CStr, DecodeInt, EntryBytes;
    var src := EntryBytes(name, inum);
    var out := Patch(blk, ENTRY_SIZE * k, src);
    forall j | 0 <= j < |blk| / ENTRY_SIZE
      ensures EntryAt(out, j) == if j == k then Entry(name, inum) else EntryAt(blk, j)
    {
      var at := ENTRY_SIZE * j;
      if j == k {
        PatchExact(blk, at, src);
        SliceOfSlice(out, at, ENTRY_SIZE, 0, MAX_FILE_NAME);
        SliceOfSlice(out, at, ENTRY_SIZE, MAX_FILE_NAME, ENTRY_SIZE);
        EntryBytesDecode(name, inum);
      } else {
        PatchOutside(blk, ENTRY_SIZE * k, src, at, at + MAX_FILE_NAME);
        PatchOutside(blk, ENTRY_SIZE * k, src, at + MAX_FILE_NAME, at + ENTRY_SIZE);
      }
    }
  }

  lemma EntryBytesDecode(name: seq<byte>, inum: int)
    requires NulFree(name) && |name| < MAX_FILE_NAME && -TWO31 <= inum < TWO31
    ensures CStr(EntryBytes(name, inum)[..MAX_FILE_NAME]) == name
    ensures DecodeInt(EntryBytes(name, inum)[MAX_FILE_NAME..]) == inum
  {
    var src := EntryBytes(name, inum);
    var pad := Zeros(MAX_FILE_NAME - |name| - 1);
    assert src[..MAX_FILE_NAME] == name + [0] + pad;
    CStrOf(name, pad);
    assert src[MAX_FILE_NAME..] == EncodeInt(inum);
    IntRoundTrip(inum);
  }

  /** Storing only an inumber keeps the name in front of it. */
  lemma InumWritten(blk: seq<byte>, k: nat, inum: int)
    requires k < |blk| / ENTRY_SIZE && -TWO31 <= inum < TWO31
    ensures Entries(Patch(blk, ENTRY_SIZE * k + MAX_FILE_NAME, EncodeInt(inum))) ==
            Entries(blk)[k := Entry(Entries(blk)[k].name, inum)]
  {
    hide Patch, DecodeInt, CStr, EncodeInt;
    var src := EncodeInt(inum);
    var pos := ENTRY_SIZE * k + MAX_FILE_NAME;
    var out := Patch(blk, pos, src);
    forall j | 0 <= j < |blk| / ENTRY_SIZE
      ensures EntryAt(out, j) == Entry(EntryAt(blk, j).name, if j == k then inum else EntryAt(blk, j).inum)
    {
      var at := ENTRY_SIZE * j;
      PatchOutside(blk, pos, src, at, at + MAX_FILE_NAME);
      if j == k {
        PatchExact(blk, pos, src);
        IntRoundTrip(inum);
      } else {
        PatchOutside(blk, pos, src, at + MAX_FILE_NAME, at + ENTRY_SIZE);
      }
    }
  }

  /** The C tests on one 40-byte name field, `mem` being the memory from its start on. */
  predicate StrncmpEqual(mem: seq<byte>, name: seq<byte>)
    requires |mem| >= MAX_FILE_NAME
  {
    if |name| >= MAX_FILE_NAME then mem[..MAX_FILE_NAME] == name[..MAX_FILE_NAME]
    else mem[..|name|] == name && mem[|name|] == 0
  }

  predicate StrcmpEqual(mem: seq<byte>, name: seq<byte>) {
    |name| < |mem| && mem[..|name|] == name && mem[|name|] == 0
  }

  /**
   * On a field whose name is terminated within its 40 bytes the bounded comparison of
   * `find_in_dir` and the unbounded one of `clear_dir_entry` agree, for names of any length.
   */
  lemma ComparisonsAgree(mem: seq<byte>, name: seq<byte>)
    requires |mem| >= MAX_FILE_NAME && NulFree(name)
    requires |CStr(mem[..MAX_FILE_NAME])| < MAX_FILE_NAME
    ensures StrncmpEqual(mem, name) <==> CStr(mem[..MAX_FILE_NAME]) == name
    ensures StrcmpEqual(mem, name) <==> CStr(mem[..MAX_FILE_NAME]) == name
  {
    var field := mem[..MAX_FILE_NAME];
    var t := CStr(field);
    if |name| > |t| {
      assert mem[|t|] == field[|t|] == 0;
      assert name[|t|] != 0;
      assert |name| <= |mem| ==> mem[..|name|][|t|] == 0;
      assert |name| >= MAX_FILE_NAME ==> name[..MAX_FILE_NAME][|t|] == name[|t|];
    } else if |name| < |t| {
      assert mem[|name|] == t[|name|];
    } else {
      assert mem[..|name|] == field[..|name|] == t;
    }
  }

  // ---- scans ----

  /** What a directory scan looks for. */
  datatype Want = Empty | Live(name: seq<byte>) | Named(name: seq<byte>) | Numbered(inum: int) {
    predicate Matches(e: Entry) {
      match this
      case Empty => e.inum == -1
      case Live(n) => e.inum != -1 && e.name == n
      case Named(n) => e.name == n
      case Numbered(i) => e.inum == i
    }
  }

  function FirstEntry(dir: seq<Entry>, w: Want): (r: int)
    ensures r == -1 ==> forall i :: 0 <= i < |dir| ==> !w.Matches(dir[i])
    ensures r != -1 ==> 0 <= r < |dir| && w.Matches(dir[r]) && forall i :: 0 <= i < r ==> !w.Matches(dir[i])
  {
    if dir == [] then -1
    else if w.Matches(dir[0]) then 0
    else
      var r := FirstEntry(dir[1..], w);
      if r == -1 then -1 else r + 1
  }

  // ---- the directory as a map ----

  predicate NameOk(name: seq<byte>) {
    0 < |name| < MAX_FILE_NAME && NulFree(name)
  }

  predicate IsLive(dir: seq<Entry>, k: int) {
    0 <= k < |dir| && dir[k].inum != -1
  }

  predicate HasInum(dir: seq<Entry>, k: int, i: int) {
    0 <= k < |dir| && dir[k].inum == i
  }

  /**
   * The live entries match the inodes in `live` one to one. Entries that were never used keep
   * the names their memory came with, but lie behind every live entry: a free entry in front of
   * a live one was cleared, name and all.
   */
  ghost predicate DirMap(dir: seq<Entry>, live: set<int>) {
    && -1 !in live
    && (forall k :: IsLive(dir, k) ==> dir[k].inum in live && NameOk(dir[k].name))
    && (forall j, k :: 0 <= j < k && IsLive(dir, k) && dir[j].inum == -1 ==> dir[j].name == [])
    && (forall j, k :: IsLive(dir, j) && IsLive(dir, k) && j != k ==>
      dir[j].name != dir[k].name && dir[j].inum != dir[k].inum)
    && (forall i :: i in live ==> exists k :: HasInum(dir, k, i))
  }

  ghost function Names(dir: seq<Entry>): (ns: set<seq<byte>>)
  {
    set k | 0 <= k < |dir| && IsLive(dir, k) :: dir[k].name
  }

  /** The inumber `find_in_dir` returns for a name, -1 if there is none. */
  function InumAt(dir: seq<Entry>, name: seq<byte>): int {
    var k := FirstEntry(dir, Live(name));
    if k == -1 then -1 else dir[k].inum
  }

  /** The name under which an inode is entered. */
  function NameAt(dir: seq<Entry>, i: int): seq<byte> {
    var k := FirstEntry(dir, Numbered(i));
    if IsLive(dir, k) then dir[k].name else []
  }

  lemma LookupLive(dir: seq<Entry>, live: set<int>, k: int)
    requires DirMap(dir, live) && IsLive(dir, k)
    ensures InumAt(dir, dir[k].name) == dir[k].inum
    ensures NameAt(dir, dir[k].inum) == dir[k].name
    ensures FirstEntry(dir, Named(dir[k].name)) == k
  {
    assert Live(dir[k].name).Matches(dir[k]);
    assert Numbered(dir[k].inum).Matches(dir[k]);
    assert Named(dir[k].name).Matches(dir[k]);
    var j := FirstEntry(dir, Named(dir[k].name));
    assert IsLive(dir, j);
  }

  /** Lookup and naming are inverse to each other. */
  lemma LookupByName(dir: seq<Entry>, live: set<int>, n: seq<byte>)
    requires DirMap(dir, live)
    ensures n in Names(dir) <==> InumAt(dir, n) != -1
    ensures n in Names(dir) ==> InumAt(dir, n) in live && NameAt(dir, InumAt(dir, n)) == n && NameOk(n)
  {
    if n in Names(dir) {
      var k :| 0 <= k < |dir| && IsLive(dir, k) && dir[k].name == n;
      LookupLive(dir, live, k);
    }
    var j := FirstEntry(dir, Live(n));
    assert j == -1 || IsLive(dir, j);
  }

  lemma LookupByInode(dir: seq<Entry>, live: set<int>, i: int)
    requires DirMap(dir, live) && i in live
    ensures NameAt(dir, i) in Names(dir) && InumAt(dir, NameAt(dir, i)) == i
  {
    var k :| HasInum(dir, k, i);
    assert IsLive(dir, k);
    LookupLive(dir, live, k);
  }

  /** Lookup and naming relate the names and the inodes in `live` one to one. */
  ghost predicate OneToOne(dir: seq<Entry>, live: set<int>) {
    && (forall n :: n in Names(dir) ==> InumAt(dir, n) in live && NameAt(dir, InumAt(dir, n)) == n)
    && (forall i :: i in live ==> NameAt(dir, i) in Names(dir) && InumAt(dir, NameAt(dir, i)) == i)
  }

  lemma DirIsOneToOne(dir: seq<Entry>, live: set<int>)
    requires DirMap(dir, live)
    ensures OneToOne(dir, live)
  {
    forall n | n in Names(dir) ensures InumAt(dir, n) in live && NameAt(dir, InumAt(dir, n)) == n {
      LookupByName(dir, live, n);
    }
    forall i | i in live ensures NameAt(dir, i) in Names(dir) && InumAt(dir, NameAt(dir, i)) == i {
      LookupByInode(dir, live, i);
    }
  }

  /** Where two directories have the same live entries, lookups agree. */
  lemma LookupsAgree(small: seq<Entry>, liveS: set<int>, big: seq<Entry>, liveB: set<int>)
    requires DirMap(small, liveS) && DirMap(big, liveB) && |small| == |big|
    requires forall j :: IsLive(small, j) ==> IsLive(big, j) && big[j] == small[j]
    ensures forall m :: m in Names(small) ==> InumAt(big, m) == InumAt(small, m)
    ensures forall i :: i in liveS ==> NameAt(big, i) == NameAt(small, i)
  {
    hide DirMap, InumAt, NameAt;
    forall m | m in Names(small) ensures InumAt(big, m) == InumAt(small, m) {
      var j :| 0 <= j < |small| && IsLive(small, j) && small[j].name == m;
      LookupLive(small, liveS, j);
      LookupLive(big, liveB, j);
    }
    forall i | i in liveS ensures NameAt(big, i) == NameAt(small, i) {
      var j := EntryOf(small, liveS, i);
      LookupLive(small, liveS, j);
      LookupLive(big, liveB, j);
    }
  }

  lemma EntryOf(dir: seq<Entry>, live: set<int>, i: int) returns (k: int)
    requires DirMap(dir, live) && i in live
    ensures IsLive(dir, k) && dir[k].inum == i
  {
    k :| HasInum(dir, k, i);
  }

  lemma FilledMap(dir: seq<Entry>, live: set<int>, k: int, n: seq<byte>, i: int)
    requires DirMap(dir, live) && k == FirstEntry(dir, Empty) != -1
    requires NameOk(n) && n !in Names(dir) && i !in live && i != -1
    ensures DirMap(dir[k := Entry(n, i)], live + {i})
  {
    hide FirstEntry;
    var out := dir[k := Entry(n, i)];
    forall j | IsLive(out, j) && j != k ensures IsLive(dir, j) && out[j] == dir[j] && dir[j].name in Names(dir) {}
    forall j | 0 <= j < k ensures IsLive(dir, j) {
      assert !Empty.Matches(dir[j]);
    }
    forall x | x in live + {i} ensures exists j :: HasInum(out, j, x) {
      if x == i {
        assert HasInum(out, k, x);
      } else {
        var j :| HasInum(dir, j, x);
        assert HasInum(out, j, x);
      }
    }
  }

  /** Filling the first free entry adds one name, and leaves no unused entry in front of it. */
  lemma EntryAdded(dir: seq<Entry>, live: set<int>, k: int, n: seq<byte>, i: int)
    requires DirMap(dir, live) && k == FirstEntry(dir, Empty) != -1
    requires NameOk(n) && n !in Names(dir) && i !in live && i != -1
    ensures DirMap(dir[k := Entry(n, i)], live + {i})
    ensures Names(dir[k := Entry(n, i)]) == Names(dir) + {n}
    ensures InumAt(dir[k := Entry(n, i)], n) == i
    ensures forall m :: m in Names(dir) ==> InumAt(dir[k := Entry(n, i)], m) == InumAt(dir, m)
    ensures forall j :: j in live ==> NameAt(dir[k := Entry(n, i)], j) == NameAt(dir, j)
  {
    hide DirMap, InumAt, NameAt, FirstEntry, Names;
    var out := dir[k := Entry(n, i)];
    FilledMap(dir, live, k, n, i);
    NamesAfterAdd(dir, live, k, n, i);
    LookupLive(out, live + {i}, k);
    LookupsAgree(dir, live, out, live + {i});
  }

  lemma NamesAfterAdd(dir: seq<Entry>, live: set<int>, k: int, n: seq<byte>, i: int)
    requires 0 <= k < |dir| && dir[k].inum == -1 && i != -1
    ensures Names(dir[k := Entry(n, i)]) == Names(dir) + {n}
  {
    var out := dir[k := Entry(n, i)];
    assert IsLive(out, k) && out[k].name == n;
    forall m | m in Names(dir) ensures m in Names(out) {
      var j :| 0 <= j < |dir| && IsLive(dir, j) && dir[j].name == m;
      assert IsLive(out, j) && out[j].name == m;
    }
    forall m | m in Names(out) && m != n ensures m in Names(dir) {
      var j :| 0 <= j < |out| && IsLive(out, j) && out[j].name == m;
      assert IsLive(dir, j) && dir[j].name == m;
    }
  }

  /** The names a scan for `sub` compares, up to the first match, are terminated inside their 40 bytes. */
  ghost predicate ComparedOk(dir: seq<Entry>, sub: seq<byte>) {
    var k := FirstEntry(dir, Named(sub));
    forall j :: 0 <= j < |dir| && (k == -1 || j <= k) ==> |dir[j].name| < MAX_FILE_NAME
  }

  /** In front of a live entry, and there, every name is terminated. */
  lemma LiveNameIsComparedOk(dir: seq<Entry>, live: set<int>, n: seq<byte>)
    requires DirMap(dir, live) && n in Names(dir)
    ensures ComparedOk(dir, n)
  {
    var k :| 0 <= k < |dir| && IsLive(dir, k) && dir[k].name == n;
    LookupLive(dir, live, k);
    forall j | 0 <= j <= k ensures |dir[j].name| < MAX_FILE_NAME {
      assert IsLive(dir, j) || dir[j].inum == -1;
    }
  }

  lemma ClearedMap(dir: seq<Entry>, live: set<int>, k: int)
    requires DirMap(dir, live) && IsLive(dir, k)
    ensures DirMap(dir[k := Entry([], -1)], live - {dir[k].inum})
  {
    var i, out := dir[k].inum, dir[k := Entry([], -1)];
    forall j | IsLive(out, j) ensures IsLive(dir, j) && out[j] == dir[j] && j != k {}
    forall x | x in live - {i} ensures exists j :: HasInum(out, j, x) {
      var j :| HasInum(dir, j, x);
      assert HasInum(out, j, x);
    }
  }

  /** Clearing by name alone hits the live entry: stale names lie behind it. */
  lemma EntryCleared(dir: seq<Entry>, live: set<int>, n: seq<byte>)
    requires DirMap(dir, live) && n in Names(dir)
    ensures var k := FirstEntry(dir, Named(n)); var i := InumAt(dir, n);
      && HasInum(dir, k, i) && i in live
      && DirMap(dir[k := Entry([], -1)], live - {i})
      && Names(dir[k := Entry([], -1)]) == Names(dir) - {n}
      && (forall m :: m in Names(dir) && m != n ==> InumAt(dir[k := Entry([], -1)], m) == InumAt(dir, m))
      && (forall j :: j in live && j != i ==> NameAt(dir[k := Entry([], -1)], j) == NameAt(dir, j))
  {
    hide DirMap, InumAt, NameAt, FirstEntry;
    var k :| 0 <= k < |dir| && IsLive(dir, k) && dir[k].name == n;
    LookupLive(dir, live, k);
    LookupByName(dir, live, n);
    var out := dir[k := Entry([], -1)];
    ClearedMap(dir, live, k);
    NamesAfterClear(dir, live, k);
    LookupsAgree(out, live - {dir[k].inum}, dir, live);
  }

  lemma NamesAfterClear(dir: seq<Entry>, live: set<int>, k: int)
    requires DirMap(dir, live) && IsLive(dir, k)
    ensures Names(dir[k := Entry([], -1)]) == Names(dir) - {dir[k].name}
  {
    var out := dir[k := Entry([], -1)];
    forall m | m in Names(dir) && m != dir[k].name ensures m in Names(out) {
      var j :| 0 <= j < |dir| && IsLive(dir, j) && dir[j].name == m;
      assert IsLive(out, j) && out[j].name == m;
    }
    forall m | m in Names(out) ensures m in Names(dir) && m != dir[k].name {
      var j :| 0 <= j < |out| && IsLive(out, j) && out[j].name == m;
      assert IsLive(dir, j) && dir[j].name == m;
    }
  }

  ghost function LiveSlots(dir: seq<Entry>): set<int> {
    set k | 0 <= k < |dir| && IsLive(dir, k)
  }

  lemma NamesCount(dir: seq<Entry>, live: set<int>)
    requires DirMap(dir, live)
    ensures |Names(dir)| == |LiveSlots(dir)|
  {
    var names := map k | k in LiveSlots(dir) :: dir[k].name;
    assert names.Keys == LiveSlots(dir);
    forall n | n in Names(dir) ensures n in names.Values {
      var k :| 0 <= k < |dir| && IsLive(dir, k) && dir[k].name == n;
      assert k in names;
    }
    assert names.Values == Names(dir);
    InjectiveSize(names);
  }

  lemma InodesCount(dir: seq<Entry>, live: set<int>)
    requires DirMap(dir, live)
    ensures |live| == |LiveSlots(dir)|
  {
    var inums := map k | k in LiveSlots(dir) :: dir[k].inum;
    assert inums.Keys == LiveSlots(dir);
    forall i | i in live ensures i in inums.Values {
      var k :| HasInum(dir, k, i);
      assert k in inums;
    }
    assert inums.Values == live;
    InjectiveSize(inums);
  }

  /** As many names as inodes; no free entry iff there are as many names as entries. */
  lemma DirectorySize(dir: seq<Entry>, live: set<int>)
    requires DirMap(dir, live)
    ensures |Names(dir)| == |live| <= |dir|
    ensures FirstEntry(dir, Empty) == -1 <==> |live| == |dir|
  {
    NamesCount(dir, live);
    InodesCount(dir, live);
    FillsRange(LiveSlots(dir), |dir|);
    var k := FirstEntry(dir, Empty);
    if k == -1 {
      forall j | j in Range(|dir|) ensures j in LiveSlots(dir) {
        assert !Empty.Matches(dir[j]);
      }
    } else {
      assert k in Range(|dir|) && k !in LiveSlots(dir);
    }
  }

  /** Names and inodes that the directory relates one to one are equally many. */
  lemma NamesMatchInodes(dir: seq<Entry>, names: set<seq<byte>>, inodes: set<int>)
    requires forall n :: n in names ==> InumAt(dir, n) in inodes && NameAt(dir, InumAt(dir, n)) == n
    requires forall i :: i in inodes ==> NameAt(dir, i) in names && InumAt(dir, NameAt(dir, i)) == i
    ensures |names| == |inodes|
  {
    var inodeOf := map n | n in names :: InumAt(dir, n);
    var nameOf := map i | i in inodes :: NameAt(dir, i);
    InverseSize(inodeOf, nameOf);
    assert inodeOf.Keys == names && nameOf.Keys == inodes;
  }
}
