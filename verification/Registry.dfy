/**
 * The broker's box table and the two handlers that change it, on top of TécnicoFS. A remove holds
 * `boxes_lock` for all it does to table and files; a create gives it up before it opens the file,
 * and so has two halves. Runs take the requests one after the other; what a remove between the
 * halves of a create does is stated on its own. What the clients' pipes do is an input.
 */
module Registry {
  import opened Bytes
  import opened Common
  import opened Counting
  import opened Directory
  import opened Inodes
  import opened TfsState
  import opened AbstractFs
  import opened TfsView
  import opened TfsRefinement

  /** `box_t` without its lock and condition variable. */
  datatype Box = Box(name: seq<byte>, size: nat, publishers: nat, subscribers: nat)

  datatype Table = Table(boxes: seq<Box>, free: seq<bool>, count: int)

  /** The parameters `main` passes to `tfs_init`. */
  const BROKER := Params(MAX_BOXES, MESSAGE_LENGTH * MAX_BOXES, MAX_BOXES, BOX_SIZE)

  /**
   * With these parameters no write through an open handle fails, and a create of a valid name
   * fails only with 63 files present (one inode is the root's) or every handle taken.
   */
  lemma BrokerNeverShort(s: State)
    requires Inv(s) && s.p == BROKER
    ensures forall h, buf :: IsOpen(s, h) && |buf| < TWO63 ==> InBounds(s, h) && Write(s, h, buf).1 >= 0
    ensures forall name, mode: Mode ::
      NulFree(name) && ValidPath(name) && |name[1..]| < MAX_FILE_NAME && mode.creat && Open(s, name, mode).1 == -1 ==>
        |FilesOf(s)| == MAX_BOXES - 1 || FirstFree(s.openTaken) == -1
  {
    hide Open, Write, FilesOf, BlocksOk, DirOk, Dir, Handles, FirstFree, InBounds;
    forall h, buf | IsOpen(s, h) && |buf| < TWO63 ensures InBounds(s, h) && Write(s, h, buf).1 >= 0 {
      WriteNeverFails(s, h, buf);
    }
    forall name, mode: Mode |
      NulFree(name) && ValidPath(name) && |name[1..]| < MAX_FILE_NAME && mode.creat && Open(s, name, mode).1 == -1
      ensures |FilesOf(s)| == MAX_BOXES - 1 || FirstFree(s.openTaken) == -1
    {
      CreateFailsOnlyWhenFull(s, name, mode);
      InodesFull(s);
    }
  }

  // ---- the box table ----

  /** The first slot with this name, free or not: a free slot is named "". */
  function GetBox(boxes: seq<Box>, name: seq<byte>): (r: int)
    ensures r == -1 ==> forall i :: 0 <= i < |boxes| ==> boxes[i].name != name
    ensures r != -1 ==> 0 <= r < |boxes| && boxes[r].name == name && forall i :: 0 <= i < r ==> boxes[i].name != name
  {
    if boxes == [] then -1
    else if boxes[0].name == name then 0
    else
      var r := GetBox(boxes[1..], name);
      if r == -1 then -1 else r + 1
  }

  /** The slots in use, as an allocation table. */
  function Used(free: seq<bool>): (used: seq<bool>)
    ensures |used| == |free| && forall i :: 0 <= i < |used| ==> used[i] == !free[i]
  {
    seq(|free|, i requires 0 <= i < |free| => !free[i])
  }

  predicate Sized(t: Table) {
    |t.boxes| == |t.free| == MAX_BOXES
  }

  /** `create_box`: counts the box before it looks for a slot. */
  function CreateBox(t: Table, name: seq<byte>): (r: (Table, bool))
    requires Sized(t)
    ensures Sized(r.0)
  {
    var i := FirstFree(Used(t.free));
    if i == -1 then (t.(count := t.count + 1), false)
    else (Table(t.boxes[i := Box(name, 0, 0, 0)], t.free[i := false], t.count + 1), true)
  }

  function CreateCode(t: Table, name: seq<byte>): (r: (Table, int))
    requires Sized(t)
    ensures Sized(r.0)
  {
    if t.count == MAX_BOXES then (t, -1)
    else if GetBox(t.boxes, name) != -1 then (t, -1)
    else
      var (t1, found) := CreateBox(t, name);
      (t1, if found then 0 else -1)
  }

  /** `remove_box` on slot `i`: the flag goes first; the name stays when the file cannot be unlinked. */
  function RemoveBox(t: Table, s: State, i: int): (r: (Table, State, bool))
    requires Sized(t) && Storage(s) && 0 <= i < MAX_BOXES
  {
    var t1 := t.(free := t.free[i := true]);
    var (s1, u) := Unlink(s, t.boxes[i].name);
    if u == -1 then (t1, s1, false)
    else (t1.(boxes := t1.boxes[i := Box([], 0, 0, 0)], count := t1.count - 1), s1, true)
  }

  // ---- the workers ----

  /** What ending a session looks at in a worker's `client_t`; `closes` says whether its pipe can be closed. */
  datatype Worker = Worker(name: seq<byte>, fd: int, listing: bool, closes: bool)

  /** How the pipe of the requesting client behaves. */
  datatype Pipe = Pipe(opens: bool, writes: bool, closes: bool)

  /** Whether `finish_client_session` succeeds. */
  predicate Ends(w: Worker) {
    w.closes && (w.listing || w.fd != -1)
  }

  /** A worker between sessions: it has forgotten the name and its handle. */
  function Ended(w: Worker): Worker {
    Worker([], -1, w.listing, w.closes)
  }

  /** `finish_client_session`: where it fails it leaves the worker as it was. */
  function Finish(w: Worker): (Worker, bool) {
    if Ends(w) then (w.(name := [], fd := -1), true) else (w, false)
  }

  /** Ends the sessions on a box from worker `i` on, except the requesting one, until one fails to end. */
  function EndFrom(ws: seq<Worker>, i: nat, me: nat, name: seq<byte>): (r: (seq<Worker>, bool))
    requires i <= |ws|
    ensures |r.0| == |ws|
    ensures r.1 <==> forall j :: i <= j < |ws| && j != me && ws[j].name == name ==> Ends(ws[j])
    ensures forall j :: 0 <= j < |ws| && !(i <= j && j != me && ws[j].name == name) ==> r.0[j] == ws[j]
    ensures r.1 ==> forall j :: i <= j < |ws| && j != me && ws[j].name == name ==> r.0[j] == Ended(ws[j])
    ensures !r.1 ==> forall j :: i <= j < |ws| ==> r.0[j] == ws[j] || (Ends(ws[j]) && r.0[j] == Ended(ws[j]))
    ensures r.1 && name != [] ==> forall j :: i <= j < |ws| && j != me ==> r.0[j].name != name
    decreases |ws| - i
  {
    if i == |ws| then (ws, true)
    else if ws[i].name == name && i != me then
      var (w, ok) := Finish(ws[i]);
      if !ok then (ws, false) else
      var ws1 := ws[i := w];
      assert forall j :: i < j < |ws| ==> ws1[j] == ws[j];
      EndFrom(ws1, i + 1, me, name)
    else EndFrom(ws, i + 1, me, name)
  }

  // ---- the handlers; `alive` means that the handler returned without a fatal error ----

  datatype Outcome = Outcome(t: Table, s: State, ws: seq<Worker>, alive: bool, code: int)

  /** The end of both handlers: the answer is written and the requesting worker's session ended. */
  function Answer(t: Table, s: State, ws: seq<Worker>, me: nat, pipe: Pipe, code: int): (o: Outcome)
    requires me < |ws|
    ensures |o.ws| == |ws|
  {
    if !pipe.writes then Outcome(t, s, ws, false, code)
    else
      var (w, ok) := Finish(ws[me]);
      Outcome(t, s, ws[me := w], ok, code)
  }

  /**
   * `handle_tfs_create_box` once `boxes_lock` is free again: opens the file under the name the
   * worker then has, even when the answer is an error.
   */
  function FinishCreate(t: Table, s: State, ws: seq<Worker>, me: nat, code: int, pipe: Pipe): (o: Outcome)
    requires Storage(s) && me < |ws|
    ensures |o.ws| == |ws|
  {
    var (s1, h) := Open(s, ws[me].name, CREATE);
    if h < 0 then Outcome(t, s1, ws, false, code) else
    var ws1 := ws[me := ws[me].(fd := h)];
    if !pipe.opens then Outcome(t, s1, ws1, false, code)
    else Answer(t, s1, ws1, me, pipe, code)
  }

  /** `handle_tfs_create_box`, when nothing comes between its two halves. */
  function HandleCreate(t: Table, s: State, ws: seq<Worker>, me: nat, name: seq<byte>, pipe: Pipe): (o: Outcome)
    requires Sized(t) && Storage(s) && me < |ws|
    ensures |o.ws| == |ws|
  {
    var ws1 := ws[me := Worker(name, ws[me].fd, false, pipe.closes)];
    var (t1, code) := CreateCode(t, name);
    FinishCreate(t1, s, ws1, me, code, pipe)
  }

  /** `handle_tfs_remove_box` */
  function HandleRemove(t: Table, s: State, ws: seq<Worker>, me: nat, name: seq<byte>, pipe: Pipe): (o: Outcome)
    requires Sized(t) && Storage(s) && me < |ws|
    ensures |o.ws| == |ws|
  {
    var ws1 := ws[me := Worker(name, ws[me].fd, false, pipe.closes)];
    if !pipe.opens then Outcome(t, s, ws1, false, 0) else
    var i := GetBox(t.boxes, name);
    if i == -1 then Answer(t, s, ws1, me, pipe, -1) else
    var (ws2, ended) := EndFrom(ws1, 0, me, name);
    if !ended then Outcome(t, s, ws2, false, 0) else
    var (t1, s1, removed) := RemoveBox(t, s, i);
    if !removed then Outcome(t1, s1, ws2, false, 0)
    else Answer(t1, s1, ws2, me, pipe, 0)
  }

  // ---- the invariant ----

  /** Counters, flags and names agree, and live names are distinct. */
  ghost predicate TableOk(t: Table) {
    && Sized(t)
    && t.count == |TakenSet(Used(t.free))|
    && (forall i :: 0 <= i < MAX_BOXES ==> (t.free[i] <==> t.boxes[i].name == []))
    && (forall i, j :: 0 <= i < j < MAX_BOXES && !t.free[i] && !t.free[j] ==> t.boxes[i].name != t.boxes[j].name)
  }

  ghost predicate IsBox(t: Table, name: seq<byte>)
    requires Sized(t)
  {
    exists i :: 0 <= i < MAX_BOXES && !t.free[i] && t.boxes[i].name == name
  }

  /** The live boxes are exactly the files, with the leading slash. */
  ghost predicate Agree(t: Table, files: Files)
    requires Sized(t)
  {
    forall name :: IsBox(t, name) <==> ValidPath(name) && name[1..] in files
  }

  ghost predicate RegistryOk(t: Table, s: State) {
    TableOk(t) && Storage(s) && Agree(t, FilesOf(s))
  }

  // ---- the table against the files ----

  lemma LiveByName(t: Table)
    requires TableOk(t)
    ensures forall i :: i in TakenSet(Used(t.free)) ==> GetBox(t.boxes, t.boxes[i].name) == i
  {
    forall i | i in TakenSet(Used(t.free)) ensures GetBox(t.boxes, t.boxes[i].name) == i {
      var j := GetBox(t.boxes, t.boxes[i].name);
      assert !t.free[j];
    }
  }

  function SlotOf(t: Table, n: seq<byte>): int {
    GetBox(t.boxes, [SLASH] + n)
  }

  function FileIn(t: Table, i: int): seq<byte>
    requires Sized(t)
  {
    if 0 <= i < MAX_BOXES && t.boxes[i].name != [] then t.boxes[i].name[1..] else []
  }

  lemma SlotHasFile(t: Table, files: Files, i: int)
    requires TableOk(t) && Agree(t, files) && i in TakenSet(Used(t.free))
    ensures FileIn(t, i) in files && SlotOf(t, FileIn(t, i)) == i
  {
    LiveByName(t);
    assert IsBox(t, t.boxes[i].name);
    assert [SLASH] + t.boxes[i].name[1..] == t.boxes[i].name;
  }

  lemma FileHasSlot(t: Table, files: Files, n: seq<byte>)
    requires TableOk(t) && Agree(t, files) && n in files && n != []
    ensures SlotOf(t, n) in TakenSet(Used(t.free)) && FileIn(t, SlotOf(t, n)) == n
  {
    LiveByName(t);
    assert ([SLASH] + n)[1..] == n && ValidPath([SLASH] + n);
    assert IsBox(t, [SLASH] + n);
    var i :| 0 <= i < MAX_BOXES && !t.free[i] && t.boxes[i].name == [SLASH] + n;
    assert i in TakenSet(Used(t.free));
  }

  lemma SlotsMatchFiles(t: Table, files: Files)
    requires TableOk(t) && Agree(t, files) && forall n :: n in files ==> n != []
    ensures t.count == |files|
  {
    assert Sized(t) && t.count == |TakenSet(Used(t.free))|;
    hide TableOk, Agree, SlotOf, FileIn, TakenSet;
    forall n | n in files ensures SlotOf(t, n) in TakenSet(Used(t.free)) && FileIn(t, SlotOf(t, n)) == n {
      FileHasSlot(t, files, n);
    }
    forall i | i in TakenSet(Used(t.free)) ensures FileIn(t, i) in files && SlotOf(t, FileIn(t, i)) == i {
      SlotHasFile(t, files, i);
    }
    AsManySlots(t, files, TakenSet(Used(t.free)));
  }

  lemma AsManySlots(t: Table, files: Files, live: set<int>)
    requires Sized(t)
    requires forall n :: n in files ==> SlotOf(t, n) in live && FileIn(t, SlotOf(t, n)) == n
    requires forall i :: i in live ==> FileIn(t, i) in files && SlotOf(t, FileIn(t, i)) == i
    ensures |live| == |files|
  {
    hide SlotOf, FileIn;
    var slotOf := map n | n in files :: SlotOf(t, n);
    var fileIn := map i | i in live :: FileIn(t, i);
    InverseSize(slotOf, fileIn);
    assert slotOf.Keys == files.Keys && fileIn.Keys == live;
    assert |files| == |files.Keys|;
  }

  /** `num_boxes` is the number of files; with as many inodes as boxes the table never fills up. */
  lemma CountIsFileCount(t: Table, s: State)
    requires RegistryOk(t, s)
    ensures t.count == |FilesOf(s)|
    ensures s.p.inodes <= MAX_BOXES ==> t.count < MAX_BOXES
  {
    hide FilesOf, DirOk, BlocksOk, Dir, TableOk, Agree;
    forall n | n in FilesOf(s) ensures n != [] {
      FileNamesAreOk(s, n);
    }
    SlotsMatchFiles(t, FilesOf(s));
    InodesFull(s);
  }

  lemma FileNamesAreOk(s: State, n: seq<byte>)
    requires Storage(s) && n in FilesOf(s)
    ensures NameOk(n)
  {
    FileOfName(s, n);
  }

  lemma SlotLeft(t: Table)
    requires TableOk(t) && t.count < MAX_BOXES
    ensures FirstFree(Used(t.free)) != -1
  {
    FullTable(Used(t.free));
  }

  /** The two tables differ in slot `i` only. */
  ghost predicate SameButSlot(t: Table, t1: Table, i: int) {
    && Sized(t) && Sized(t1) && 0 <= i < MAX_BOXES
    && forall j :: 0 <= j < MAX_BOXES && j != i ==> t1.boxes[j] == t.boxes[j] && t1.free[j] == t.free[j]
  }

  /** A free slot of `t` holds the new box, empty and without sessions; all else is as it was. */
  ghost predicate NewIn(t: Table, t1: Table, name: seq<byte>, i: int) {
    && SameButSlot(t, t1, i)
    && t.free[i] && !t1.free[i] && t1.count == t.count + 1
    && t1.boxes[i].name == name
    && t1.boxes[i].size == t1.boxes[i].publishers == t1.boxes[i].subscribers == 0
  }

  /** The slot of the box is free, unnamed and all zero; all else is as it was. */
  ghost predicate GoneFrom(t: Table, t1: Table, name: seq<byte>, i: int) {
    && SameButSlot(t, t1, i)
    && !t.free[i] && t.boxes[i].name == name && t1.free[i] && t1.count == t.count - 1
    && t1.boxes[i].name == []
    && t1.boxes[i].size == t1.boxes[i].publishers == t1.boxes[i].subscribers == 0
  }

  /** While the counter is below the maximum, `get_free_box` finds a slot inside `create_box`. */
  lemma BoxCreated(t: Table, name: seq<byte>)
    requires TableOk(t) && t.count < MAX_BOXES && GetBox(t.boxes, name) == -1 && name != []
    ensures var (t1, found) := CreateBox(t, name);
      && found && TableOk(t1) && (forall m :: IsBox(t1, m) <==> m == name || IsBox(t, m))
      && exists i :: NewIn(t, t1, name, i)
  {
    hide TakenSet, GetBox, FirstFree, IsBox, Used;
    SlotLeft(t);
    var i := FirstFree(Used(t.free));
    TableAfterCreate(t, i, name);
    BoxesAfterCreate(t, i, name);
    assert NewIn(t, CreateBox(t, name).0, name, i);
  }

  lemma TableAfterCreate(t: Table, i: int, name: seq<byte>)
    requires TableOk(t) && 0 <= i < MAX_BOXES && t.free[i] && GetBox(t.boxes, name) == -1 && name != []
    ensures TableOk(Table(t.boxes[i := Box(name, 0, 0, 0)], t.free[i := false], t.count + 1))
  {
    hide GetBox;
    assert TakenSet(Used(t.free[i := false])) == TakenSet(Used(t.free)) + {i};
  }

  lemma BoxesAfterCreate(t: Table, i: int, name: seq<byte>)
    requires Sized(t) && 0 <= i < MAX_BOXES && t.free[i]
    ensures var t1 := Table(t.boxes[i := Box(name, 0, 0, 0)], t.free[i := false], t.count + 1);
      forall m :: IsBox(t1, m) <==> m == name || IsBox(t, m)
  {
    var t1 := Table(t.boxes[i := Box(name, 0, 0, 0)], t.free[i := false], t.count + 1);
    forall m ensures IsBox(t1, m) <==> m == name || IsBox(t, m) {
      if IsBox(t, m) {
        var j :| 0 <= j < MAX_BOXES && !t.free[j] && t.boxes[j].name == m;
        assert !t1.free[j] && t1.boxes[j].name == m;
      }
      if m == name {
        assert !t1.free[i] && t1.boxes[i].name == m;
      }
    }
  }

  /** The leading slash tells names apart from paths; box names are short enough for TécnicoFS. */
  predicate BoxNameOk(name: seq<byte>) {
    NulFree(name) && |name| <= BOX_NAME_LENGTH
  }

  /** A create that meets no fatal error keeps table and files in agreement; it answers 0 iff the box is new. */
  lemma CreateKeepsAgreement(t: Table, s: State, ws: seq<Worker>, me: nat, name: seq<byte>, pipe: Pipe)
    requires RegistryOk(t, s) && BoxNameOk(name) && s.p.inodes <= MAX_BOXES && me < |ws|
    ensures var o := HandleCreate(t, s, ws, me, name, pipe);
      o.alive ==>
        && RegistryOk(o.t, o.s) && o.s.p == s.p
        && (o.code == 0 <==> !IsBox(t, name))
        && (forall m :: IsBox(o.t, m) <==> m == name || IsBox(t, m))
  {
    hide FilesOf, DirOk, BlocksOk, Dir, Open;
    CountIsFileCount(t, s);
    OpenRefines(s, name, CREATE);
    var o := HandleCreate(t, s, ws, me, name, pipe);
    if o.alive {
      assert ValidPath(name);
      if GetBox(t.boxes, name) == -1 {
        BoxCreated(t, name);
        NewFileAgrees(t, o.t, FilesOf(s), FilesOf(o.s), name);
      } else {
        var i := GetBox(t.boxes, name);
        assert !t.free[i] && IsBox(t, name);
      }
    }
  }

  lemma NewFileAgrees(t: Table, t1: Table, files: Files, files1: Files, name: seq<byte>)
    requires Sized(t) && Sized(t1) && Agree(t, files) && ValidPath(name)
    requires forall m :: IsBox(t1, m) <==> m == name || IsBox(t, m)
    requires files1.Keys == files.Keys + {name[1..]}
    ensures Agree(t1, files1)
  {
    forall m ensures IsBox(t1, m) <==> ValidPath(m) && m[1..] in files1 {
      if ValidPath(m) && m[1..] == name[1..] {
        assert m == [SLASH] + m[1..] == name;
      }
    }
  }

  /** The conditions under which `tfs_open` in the create handler gives a handle. */
  ghost predicate CanOpen(s: State, name: seq<byte>)
    requires Storage(s)
  {
    && ValidPath(name) && FirstFree(s.openTaken) != -1
    && (name[1..] in FilesOf(s) || RoomFor(s.p, FilesOf(s)))
  }

  /** The files once a create has opened the box, with a handle or without. */
  ghost function FilesWith(s: State, name: seq<byte>): Files
    requires Storage(s)
  {
    if ValidPath(name) && name[1..] !in FilesOf(s) && RoomFor(s.p, FilesOf(s)) then FilesOf(s)[name[1..] := []]
    else FilesOf(s)
  }

  lemma CreateOpens(s: State, name: seq<byte>)
    requires Storage(s) && BoxNameOk(name)
    ensures var (s1, h) := Open(s, name, CREATE);
      Storage(s1) && s1.p == s.p && (h >= 0 <==> CanOpen(s, name)) && FilesOf(s1) == FilesWith(s, name)
  {
    hide FilesOf, DirOk, BlocksOk, Dir, Open;
    OpenRefines(s, name, CREATE);
  }

  /**
   * When the second half of a create returns without a fatal error, and what it leaves: the file
   * is there, with its old contents if it had any; the worker's session has ended; no other
   * worker, and nothing in the table, has changed.
   */
  lemma FinishCreateSurvives(t: Table, s: State, ws: seq<Worker>, me: nat, code: int, pipe: Pipe)
    requires Storage(s) && me < |ws| && BoxNameOk(ws[me].name) && !ws[me].listing && ws[me].closes == pipe.closes
    ensures var o := FinishCreate(t, s, ws, me, code, pipe);
      && (o.alive <==> pipe.opens && pipe.writes && pipe.closes && CanOpen(s, ws[me].name))
      && Storage(o.s) && FilesOf(o.s) == FilesWith(s, ws[me].name) && o.t == t && o.code == code
      && o.ws == ws[me := o.ws[me]] && (o.alive ==> o.ws[me] == Ended(ws[me]))
  {
    hide FilesOf, DirOk, BlocksOk, Dir, Open, CanOpen, FilesWith;
    CreateOpens(s, ws[me].name);
  }

  /**
   * When a create returns without a fatal error: the client's pipe works, the name is a path,
   * and there is a handle, and room for the file if it is new. With or without: a new box has
   * got a slot of its own, empty and without sessions; for an old one, or no name, the answer
   * is an error and the table stays. Without: the new slot has the size of its new, empty file.
   */
  lemma CreateSurvives(t: Table, s: State, ws: seq<Worker>, me: nat, name: seq<byte>, pipe: Pipe)
    requires RegistryOk(t, s) && BoxNameOk(name) && s.p.inodes <= MAX_BOXES && me < |ws|
    ensures var o := HandleCreate(t, s, ws, me, name, pipe);
      && (o.alive <==> pipe.opens && pipe.writes && pipe.closes && CanOpen(s, name))
      && Storage(o.s) && FilesOf(o.s) == FilesWith(s, name)
      && o.ws == ws[me := o.ws[me]]
      && (if name == [] || IsBox(t, name) then o.code == -1 && o.t == t
          else o.code == 0 && exists i :: NewIn(t, o.t, name, i))
      && (o.alive ==>
            && o.ws[me] == Worker([], -1, false, pipe.closes) && name != []
            && FilesOf(o.s) == if IsBox(t, name) then FilesOf(s) else FilesOf(s)[name[1..] := []])
  {
    hide FilesOf, DirOk, BlocksOk, Dir, FinishCreate, RoomFor, FirstFree, NewIn;
    var ws1 := ws[me := Worker(name, ws[me].fd, false, pipe.closes)];
    var (t1, code) := CreateCode(t, name);
    FinishCreateSurvives(t1, s, ws1, me, code, pipe);
    UnnamedSlot(t, s, name);
    CountIsFileCount(t, s);
    if name != [] {
      if GetBox(t.boxes, name) == -1 {
        NoSuchBox(t, name);
        BoxCreated(t, name);
      } else {
        var i := GetBox(t.boxes, name);
        assert !t.free[i] && IsBox(t, name);
      }
    }
  }

  lemma BoxRemoved(t: Table, i: int)
    requires TableOk(t) && 0 <= i < MAX_BOXES && !t.free[i]
    ensures var t1 := Table(t.boxes[i := Box([], 0, 0, 0)], t.free[i := true], t.count - 1);
      TableOk(t1) && forall m :: IsBox(t1, m) <==> m != t.boxes[i].name && IsBox(t, m)
  {
    hide IsBox, TakenSet, Used;
    TableAfterRemove(t, i);
    BoxesAfterRemove(t, i);
  }

  lemma TableAfterRemove(t: Table, i: int)
    requires TableOk(t) && 0 <= i < MAX_BOXES && !t.free[i]
    ensures TableOk(Table(t.boxes[i := Box([], 0, 0, 0)], t.free[i := true], t.count - 1))
  {
    assert TakenSet(Used(t.free[i := true])) == TakenSet(Used(t.free)) - {i};
  }

  lemma BoxesAfterRemove(t: Table, i: int)
    requires TableOk(t) && 0 <= i < MAX_BOXES && !t.free[i]
    ensures var t1 := Table(t.boxes[i := Box([], 0, 0, 0)], t.free[i := true], t.count - 1);
      forall m :: IsBox(t1, m) <==> m != t.boxes[i].name && IsBox(t, m)
  {
    hide TakenSet, Used;
    var t1 := Table(t.boxes[i := Box([], 0, 0, 0)], t.free[i := true], t.count - 1);
    forall m ensures IsBox(t1, m) <==> m != t.boxes[i].name && IsBox(t, m) {
      if IsBox(t, m) && m != t.boxes[i].name {
        var j :| 0 <= j < MAX_BOXES && !t.free[j] && t.boxes[j].name == m;
        assert !t1.free[j] && t1.boxes[j].name == m;
      }
      if IsBox(t1, m) {
        var j :| 0 <= j < MAX_BOXES && !t1.free[j] && t1.boxes[j].name == m;
        assert !t.free[j] && t.boxes[j].name == m && j != i;
      }
    }
  }

  lemma LostFileAgrees(t: Table, t1: Table, files: Files, name: seq<byte>)
    requires Sized(t) && Sized(t1) && Agree(t, files) && ValidPath(name)
    requires forall m :: IsBox(t1, m) <==> m != name && IsBox(t, m)
    ensures Agree(t1, files - {name[1..]})
  {
    forall m ensures IsBox(t1, m) <==> ValidPath(m) && m[1..] in files - {name[1..]} {
      if ValidPath(m) && m[1..] == name[1..] {
        assert m == [SLASH] + m[1..] == name;
      }
    }
  }

  ghost predicate NobodyOn(ws: seq<Worker>, name: seq<byte>) {
    forall j :: 0 <= j < |ws| ==> ws[j].name != name
  }

  lemma SlotGone(t: Table, i: int)
    requires Sized(t) && 0 <= i < MAX_BOXES && !t.free[i]
    ensures GoneFrom(t, Table(t.boxes[i := Box([], 0, 0, 0)], t.free[i := true], t.count - 1), t.boxes[i].name, i)
  {
  }

  /** Removing a live box always succeeds, and takes exactly its name and its file. */
  lemma BoxAndFileRemoved(t: Table, s: State, name: seq<byte>)
    requires RegistryOk(t, s) && BoxNameOk(name) && GetBox(t.boxes, name) != -1
    ensures var (t1, s1, removed) := RemoveBox(t, s, GetBox(t.boxes, name));
      && (removed <==> name != [])
      && (removed ==>
            && RegistryOk(t1, s1) && s1.p == s.p && IsBox(t, name)
            && FilesOf(s1) == FilesOf(s) - {name[1..]}
            && GoneFrom(t, t1, name, GetBox(t.boxes, name))
            && forall m :: IsBox(t1, m) <==> m != name && IsBox(t, m))
  {
    hide FilesOf, DirOk, BlocksOk, Dir, Unlink, GoneFrom;
    UnlinkRefines(s, name);
    if name != [] {
      var i := GetBox(t.boxes, name);
      assert !t.free[i] && IsBox(t, name);
      BoxRemoved(t, i);
      SlotGone(t, i);
      LostFileAgrees(t, RemoveBox(t, s, i).0, FilesOf(s), name);
    }
  }

  /** A remove that meets no fatal error keeps the agreement; it answers 0 iff there was such a box, now gone. */
  lemma RemoveKeepsAgreement(t: Table, s: State, ws: seq<Worker>, me: nat, name: seq<byte>, pipe: Pipe)
    requires RegistryOk(t, s) && BoxNameOk(name) && me < |ws|
    ensures var o := HandleRemove(t, s, ws, me, name, pipe);
      o.alive ==>
        && RegistryOk(o.t, o.s) && o.s.p == s.p
        && (o.code == 0 <==> IsBox(t, name))
        && (forall m :: IsBox(o.t, m) <==> m != name && IsBox(t, m))
        && (o.code == 0 ==> NobodyOn(o.ws, name))
  {
    hide RegistryOk, RemoveBox, EndFrom;
    SizedAndIntact(t, s);
    if GetBox(t.boxes, name) != -1 {
      BoxAndFileRemoved(t, s, name);
    } else {
      NoSuchBox(t, name);
    }
  }

  /** What a remove does to workers: sessions on other boxes stay; those on this one end, if they all can. */
  lemma RemoveEndsSessions(t: Table, s: State, ws: seq<Worker>, me: nat, name: seq<byte>, pipe: Pipe)
    requires RegistryOk(t, s) && BoxNameOk(name) && me < |ws|
    ensures var o := HandleRemove(t, s, ws, me, name, pipe);
      && (forall j :: 0 <= j < |ws| && j != me && ws[j].name != name ==> o.ws[j] == ws[j])
      && (forall j :: 0 <= j < |ws| && j != me ==> o.ws[j] == ws[j] || (Ends(ws[j]) && o.ws[j] == Ended(ws[j])))
      && (o.alive ==>
            && o.ws[me] == Worker([], -1, false, pipe.closes)
            && forall j :: 0 <= j < |ws| && j != me && ws[j].name == name ==>
                 o.ws[j] == if o.code == 0 then Ended(ws[j]) else ws[j])
  {
    hide RegistryOk, RemoveBox, EndFrom;
    SizedAndIntact(t, s);
    var ws1 := ws[me := Worker(name, ws[me].fd, false, pipe.closes)];
    assert forall j :: 0 <= j < |ws| && j != me ==> ws1[j] == ws[j];
  }

  /** The box is found and all other sessions on it can be ended: then it goes, whatever becomes of the answer. */
  ghost predicate Removes(t: Table, ws: seq<Worker>, me: nat, name: seq<byte>, pipe: Pipe)
    requires Sized(t)
  {
    pipe.opens && IsBox(t, name) && forall j :: 0 <= j < |ws| && j != me && ws[j].name == name ==> Ends(ws[j])
  }

  /** What a remove does to table and files: one slot and one file go, or nothing; and what it answers. */
  lemma RemoveTakesOneBox(t: Table, s: State, ws: seq<Worker>, me: nat, name: seq<byte>, pipe: Pipe)
    requires RegistryOk(t, s) && BoxNameOk(name) && me < |ws|
    ensures var o := HandleRemove(t, s, ws, me, name, pipe);
      && Storage(o.s) && Sized(t)
      && (if Removes(t, ws, me, name, pipe) then
            (exists i :: GoneFrom(t, o.t, name, i)) && FilesOf(o.s) == FilesOf(s) - {name[1..]}
          else o.t == t && o.s == s)
      && (o.alive ==> if IsBox(t, name) then o.code == 0 && Removes(t, ws, me, name, pipe) else o.code == -1)
  {
    hide RegistryOk, RemoveBox, EndFrom, GoneFrom, FilesOf;
    SizedAndIntact(t, s);
    var ws1 := ws[me := Worker(name, ws[me].fd, false, pipe.closes)];
    assert forall j :: 0 <= j < |ws| && j != me ==> ws1[j] == ws[j];
    var i := GetBox(t.boxes, name);
    if i != -1 {
      BoxAndFileRemoved(t, s, name);
      FoundBox(t, s, name);
      var (t1, s1, removed) := RemoveBox(t, s, i);
      if removed {
        SizedAndIntact(t1, s1);
      } else {
        UnlinkOfNothing(t, s, i);
      }
    } else {
      NoSuchBox(t, name);
    }
  }

  lemma FoundBox(t: Table, s: State, name: seq<byte>)
    requires RegistryOk(t, s) && GetBox(t.boxes, name) != -1
    ensures (name != [] <==> IsBox(t, name)) && (name == [] ==> t.free[GetBox(t.boxes, name)])
  {
    var i := GetBox(t.boxes, name);
    if name != [] {
      assert !t.free[i];
    }
  }

  /** Removing an unnamed slot leaves everything as it was. */
  lemma UnlinkOfNothing(t: Table, s: State, i: int)
    requires Sized(t) && Storage(s) && 0 <= i < MAX_BOXES && t.free[i] && t.boxes[i].name == []
    ensures RemoveBox(t, s, i) == (t, s, false)
  {
    hide DirOk, BlocksOk, Dir;
    assert t.free[i := true] == t.free;
  }

  lemma NoSuchBox(t: Table, name: seq<byte>)
    requires Sized(t) && GetBox(t.boxes, name) == -1
    ensures !IsBox(t, name)
  {
  }

  /**
   * When a remove returns without a fatal error: the requesting worker still holds a handle from
   * no finished session, its client's pipe works, and, if the box exists, every other session on
   * it can be ended, that is, its pipe closes and it is listing or holds a handle.
   */
  lemma RemoveSurvives(t: Table, s: State, ws: seq<Worker>, me: nat, name: seq<byte>, pipe: Pipe)
    requires RegistryOk(t, s) && BoxNameOk(name) && me < |ws|
    ensures HandleRemove(t, s, ws, me, name, pipe).alive <==>
      && pipe.opens && pipe.writes && pipe.closes && ws[me].fd != -1
      && (GetBox(t.boxes, name) != -1 ==>
            name != [] && forall j :: 0 <= j < |ws| && j != me && ws[j].name == name ==>
              ws[j].closes && (ws[j].listing || ws[j].fd != -1))
  {
    hide RegistryOk, RemoveBox, EndFrom;
    SizedAndIntact(t, s);
    var ws1 := ws[me := Worker(name, ws[me].fd, false, pipe.closes)];
    var ws2 := EndFrom(ws1, 0, me, name).0;
    assert forall j :: 0 <= j < |ws| && j != me ==> ws1[j] == ws[j];
    assert ws2[me] == ws1[me];
    if GetBox(t.boxes, name) != -1 {
      BoxAndFileRemoved(t, s, name);
    }
  }

  // ---- a remove between the halves of a create ----

  /** The box is in the table, but the file need not be there yet. */
  ghost predicate Pending(t: Table, s: State, name: seq<byte>) {
    && TableOk(t) && Storage(s)
    && forall m :: IsBox(t, m) <==> m == name || (ValidPath(m) && m[1..] in FilesOf(s))
  }

  /** The first half, under `boxes_lock`, leaves the box in the table. */
  lemma FirstHalf(t: Table, s: State, name: seq<byte>)
    requires RegistryOk(t, s) && BoxNameOk(name) && name != [] && s.p.inodes <= MAX_BOXES
    ensures var (t1, code) := CreateCode(t, name);
      Pending(t1, s, name) && (code == 0 <==> !IsBox(t, name)) && (code != 0 ==> t1 == t)
  {
    hide FilesOf, DirOk, BlocksOk, Dir;
    CountIsFileCount(t, s);
    if GetBox(t.boxes, name) == -1 {
      NoSuchBox(t, name);
      BoxCreated(t, name);
    } else {
      var i := GetBox(t.boxes, name);
      assert !t.free[i] && IsBox(t, name);
    }
  }

  /** The second half completes the table, if the worker still goes by the name. */
  lemma SecondHalf(t: Table, s: State, ws: seq<Worker>, me: nat, code: int, pipe: Pipe)
    requires me < |ws| && BoxNameOk(ws[me].name) && Storage(s)
    requires ws[me].name != [] ==> Pending(t, s, ws[me].name)
    ensures var o := FinishCreate(t, s, ws, me, code, pipe); o.alive ==> RegistryOk(o.t, o.s)
  {
    hide FilesOf, DirOk, BlocksOk, Dir, Open;
    var name := ws[me].name;
    OpenRefines(s, name, CREATE);
    var o := FinishCreate(t, s, ws, me, code, pipe);
    if o.alive {
      assert ValidPath(name);
      PendingFileAgrees(t, FilesOf(s), FilesOf(o.s), name);
    }
  }

  lemma PendingFileAgrees(t: Table, files: Files, files1: Files, name: seq<byte>)
    requires Sized(t) && ValidPath(name)
    requires forall m :: IsBox(t, m) <==> m == name || (ValidPath(m) && m[1..] in files)
    requires files1.Keys == files.Keys + {name[1..]}
    ensures Agree(t, files1)
  {
    forall m ensures IsBox(t, m) <==> ValidPath(m) && m[1..] in files1 {
      if ValidPath(m) && m[1..] == name[1..] {
        assert m == [SLASH] + m[1..] == name;
      }
    }
  }

  /** Removing a box in that state: it works iff the file is there. */
  lemma RemoveWhilePending(t: Table, s: State, name: seq<byte>, r: seq<byte>)
    requires Pending(t, s, name) && BoxNameOk(r) && GetBox(t.boxes, r) != -1
    ensures var (t1, s1, removed) := RemoveBox(t, s, GetBox(t.boxes, r));
      && (removed <==> ValidPath(r) && r[1..] in FilesOf(s))
      && (!removed ==> s1 == s && t1 == t.(free := t1.free) && t1.free == t.free[GetBox(t.boxes, r) := true])
      && (removed && r != name ==> Pending(t1, s1, name))
      && (removed ==> Storage(s1))
  {
    hide FilesOf, DirOk, BlocksOk, Dir, Unlink;
    UnlinkRefines(s, r);
    var i := GetBox(t.boxes, r);
    var (t1, s1, removed) := RemoveBox(t, s, i);
    if removed {
      assert !t.free[i];
      BoxRemoved(t, i);
      if r != name {
        PendingWithout(t, t1, FilesOf(s), FilesOf(s1), name, r);
      }
    }
  }

  lemma PendingWithout(t: Table, t1: Table, files: Files, files1: Files, name: seq<byte>, r: seq<byte>)
    requires Sized(t) && Sized(t1) && ValidPath(r) && r != name && files1 == files - {r[1..]}
    requires forall m :: IsBox(t, m) <==> m == name || (ValidPath(m) && m[1..] in files)
    requires forall m :: IsBox(t1, m) <==> m != r && IsBox(t, m)
    ensures forall m :: IsBox(t1, m) <==> m == name || (ValidPath(m) && m[1..] in files1)
  {
    forall m ensures IsBox(t1, m) <==> m == name || (ValidPath(m) && m[1..] in files1) {
      if ValidPath(m) && m[1..] == r[1..] {
        assert m == [SLASH] + m[1..] == r;
      }
    }
  }

  /**
   * `handle_tfs_create_box` gives up `boxes_lock` before it opens the file. A remove that comes in
   * between returns without a fatal error iff, besides what any remove needs, the box it finds
   * has its file: it is fatal exactly for the box that is being created.
   */
  lemma RemoveBetweenSurvives(t: Table, s: State, ws: seq<Worker>, me: nat, name: seq<byte>, r: seq<byte>, pipe: Pipe)
    requires RegistryOk(t, s) && BoxNameOk(name) && BoxNameOk(r) && s.p.inodes <= MAX_BOXES && me < |ws|
    ensures var (t1, code) := CreateCode(t, name);
      HandleRemove(t1, s, ws, me, r, pipe).alive <==>
        && pipe.opens && pipe.writes && pipe.closes && ws[me].fd != -1
        && (GetBox(t1.boxes, r) != -1 ==>
              && r != [] && !(r == name && code == 0)
              && forall j :: 0 <= j < |ws| && j != me && ws[j].name == r ==> Ends(ws[j]))
  {
    hide FilesOf, DirOk, BlocksOk, Dir, RemoveBox, EndFrom, CreateCode, GetBox;
    UnnamedSlot(t, s, name);
    if name == [] {
      RemoveSurvives(t, s, ws, me, r, pipe);
      return;
    }
    FirstHalf(t, s, name);
    var (t1, code) := CreateCode(t, name);
    var ws1 := ws[me := Worker(r, ws[me].fd, false, pipe.closes)];
    var ws2 := EndFrom(ws1, 0, me, r).0;
    assert forall j :: 0 <= j < |ws| && j != me ==> ws1[j] == ws[j];
    assert ws2[me] == ws1[me];
    if GetBox(t1.boxes, r) != -1 {
      RemoveWhilePending(t1, s, name, r);
      FoundHasFile(t, t1, s, name, r);
    }
  }

  /** A box found has a file, except the unnamed slots and the box being created. */
  lemma FoundHasFile(t: Table, t1: Table, s: State, name: seq<byte>, r: seq<byte>)
    requires RegistryOk(t, s) && Pending(t1, s, name) && GetBox(t1.boxes, r) != -1
    ensures ValidPath(r) && r[1..] in FilesOf(s) <==> r != [] && !(r == name && !IsBox(t, name))
  {
    hide FilesOf, DirOk, BlocksOk, Dir;
    var i := GetBox(t1.boxes, r);
    if r != [] {
      assert !t1.free[i] && IsBox(t1, r);
    }
  }

  /** Whatever a remove in between took away, if both survive, table and files agree again in the end. */
  lemma RaceKeepsAgreement(t: Table, s: State, ws: seq<Worker>, me: nat, name: seq<byte>, pipe: Pipe,
                           other: nat, r: seq<byte>, pipe2: Pipe)
    requires RegistryOk(t, s) && BoxNameOk(name) && BoxNameOk(r) && s.p.inodes <= MAX_BOXES
    requires me < |ws| && other < |ws| && me != other
    ensures var (t1, code) := CreateCode(t, name);
      var mid := HandleRemove(t1, s, ws[me := Worker(name, ws[me].fd, false, pipe.closes)], other, r, pipe2);
      mid.alive ==>
        && Storage(mid.s)
        && var o := FinishCreate(mid.t, mid.s, mid.ws, me, code, pipe); o.alive ==> RegistryOk(o.t, o.s)
  {
    hide FilesOf, DirOk, BlocksOk, Dir, RemoveBox, EndFrom, CreateCode, GetBox, FinishCreate;
    var (t1, code) := CreateCode(t, name);
    var ws1 := ws[me := Worker(name, ws[me].fd, false, pipe.closes)];
    var mid := HandleRemove(t1, s, ws1, other, r, pipe2);
    UnnamedSlot(t, s, name);
    if name != [] {
      FirstHalf(t, s, name);
    }
    if mid.alive {
      MidState(t1, s, ws1, me, name, other, r, pipe2);
      SecondHalf(mid.t, mid.s, mid.ws, me, code, pipe);
    }
  }

  lemma UnnamedSlot(t: Table, s: State, name: seq<byte>)
    requires RegistryOk(t, s) && s.p.inodes <= MAX_BOXES
    ensures Sized(t) && Storage(s) && (name == [] ==> CreateCode(t, name) == (t, -1) && TableOk(t))
  {
    hide FilesOf, DirOk, BlocksOk, Dir;
    CountIsFileCount(t, s);
    SlotLeft(t);
  }

  /** After a remove that survived, the creating worker has lost its name, or its box is still pending. */
  lemma MidState(t: Table, s: State, ws: seq<Worker>, me: nat, name: seq<byte>, other: nat, r: seq<byte>, pipe: Pipe)
    requires me < |ws| && other < |ws| && me != other && ws[me].name == name && BoxNameOk(name) && BoxNameOk(r)
    requires Sized(t) && Storage(s) && (name != [] ==> Pending(t, s, name))
    requires HandleRemove(t, s, ws, other, r, pipe).alive && (name == [] ==> TableOk(t))
    ensures var mid := HandleRemove(t, s, ws, other, r, pipe);
      && Storage(mid.s) && BoxNameOk(mid.ws[me].name)
      && (mid.ws[me].name != [] ==> Pending(mid.t, mid.s, mid.ws[me].name))
  {
    hide FilesOf, DirOk, BlocksOk, Dir, RemoveBox, EndFrom, GetBox;
    var ws1 := ws[other := Worker(r, ws[other].fd, false, pipe.closes)];
    assert ws1[me] == ws[me];
    if GetBox(t.boxes, r) != -1 {
      RemovedIsIntact(t, s, r);
      if name != [] {
        RemoveWhilePending(t, s, name, r);
      }
    }
  }

  lemma RemovedIsIntact(t: Table, s: State, r: seq<byte>)
    requires Sized(t) && Storage(s) && BoxNameOk(r) && GetBox(t.boxes, r) != -1
    ensures Storage(RemoveBox(t, s, GetBox(t.boxes, r)).1)
  {
    hide FilesOf, DirOk, BlocksOk, Dir, Unlink;
    UnlinkRefines(s, r);
  }

  // ---- runs ----

  datatype Request =
    | CreateRequest(me: nat, name: seq<byte>, pipe: Pipe)
    | RemoveRequest(me: nat, name: seq<byte>, pipe: Pipe)

  /** Some worker serves the request, and its name came in a request record. */
  predicate RequestOk(r: Request, workers: nat) {
    r.me < workers && BoxNameOk(r.name)
  }

  function Handle(t: Table, s: State, ws: seq<Worker>, r: Request): Outcome
    requires Sized(t) && Storage(s) && r.me < |ws|
  {
    match r
    case CreateRequest(me, name, pipe) => HandleCreate(t, s, ws, me, name, pipe)
    case RemoveRequest(me, name, pipe) => HandleRemove(t, s, ws, me, name, pipe)
  }

  /** The requests, one after the other, up to the first fatal error. */
  ghost function Serve(t: Table, s: State, ws: seq<Worker>, requests: seq<Request>): (o: Outcome)
    requires RegistryOk(t, s) && s.p.inodes <= MAX_BOXES
    requires forall i :: 0 <= i < |requests| ==> RequestOk(requests[i], |ws|)
    ensures |o.ws| == |ws|
    ensures o.alive ==> RegistryOk(o.t, o.s) && o.s.p == s.p
  {
    if requests == [] then Outcome(t, s, ws, true, 0) else
    var front := requests[..|requests| - 1];
    var last := requests[|requests| - 1];
    var o := Serve(t, s, ws, front);
    if !o.alive then o else
    OneRequest(o.t, o.s, o.ws, last);
    WorkersAfter(o.t, o.s, o.ws, last);
    Handle(o.t, o.s, o.ws, last)
  }

  lemma OneRequest(t: Table, s: State, ws: seq<Worker>, r: Request)
    requires RegistryOk(t, s) && s.p.inodes <= MAX_BOXES && RequestOk(r, |ws|)
    ensures var o := Handle(t, s, ws, r); o.alive ==> RegistryOk(o.t, o.s) && o.s.p == s.p
  {
    hide RegistryOk, HandleCreate, HandleRemove;
    match r
    case CreateRequest(me, name, pipe) => CreateKeepsAgreement(t, s, ws, me, name, pipe);
    case RemoveRequest(me, name, pipe) => RemoveKeepsAgreement(t, s, ws, me, name, pipe);
  }

  // ---- workers wear out ----

  /** The workers that have a handle to end a session with. */
  ghost function Armed(ws: seq<Worker>): set<int> {
    set j | 0 <= j < |ws| && ws[j].fd != -1
  }

  /** Whoever serves a request has no handle afterwards; a remove needs one; nobody else gains one. */
  lemma WorkersAfter(t: Table, s: State, ws: seq<Worker>, r: Request)
    requires Sized(t) && Storage(s) && r.me < |ws|
    ensures var o := Handle(t, s, ws, r);
      && |o.ws| == |ws|
      && (o.alive ==> Armed(o.ws) <= Armed(ws) - {r.me} && (r.RemoveRequest? ==> r.me in Armed(ws)))
  {
    hide RemoveBox, CreateCode, Open, Storage;
  }

  function RemoveCount(requests: seq<Request>): nat {
    if requests == [] then 0
    else RemoveCount(requests[..|requests| - 1]) + if requests[|requests| - 1].RemoveRequest? then 1 else 0
  }

  /**
   * Every remove costs a worker the handle it came with, and nothing ever gives one back: a run
   * of creates and removes without fatal error has at most as many removes as there were such workers.
   */
  lemma {:induction false} RemovesAreBounded(t: Table, s: State, ws: seq<Worker>, requests: seq<Request>)
    requires RegistryOk(t, s) && s.p.inodes <= MAX_BOXES
    requires forall i :: 0 <= i < |requests| ==> RequestOk(requests[i], |ws|)
    ensures var o := Serve(t, s, ws, requests);
      o.alive ==> RemoveCount(requests) + |Armed(o.ws)| <= |Armed(ws)| <= |ws|
    decreases |requests|
  {
    hide RegistryOk, Handle, Armed;
    if requests == [] {
      ArmedAreWorkers(ws);
    } else {
      var front, last := requests[..|requests| - 1], requests[|requests| - 1];
      RemovesAreBounded(t, s, ws, front);
      var mid := Serve(t, s, ws, front);
      if mid.alive {
        SizedAndIntact(mid.t, mid.s);
        WorkersAfter(mid.t, mid.s, mid.ws, last);
        var o := Handle(mid.t, mid.s, mid.ws, last);
        if o.alive {
          FewerArmed(Armed(mid.ws), Armed(o.ws), last.me);
        }
      }
    }
  }

  /** Every box has the size of its file: what the sessions on a box start from. */
  ghost predicate SizesOk(t: Table, files: Files)
    requires Sized(t)
  {
    forall i :: 0 <= i < MAX_BOXES && !t.free[i] ==>
      |t.boxes[i].name| > 0 && t.boxes[i].name[1..] in files && t.boxes[i].size == |files[t.boxes[i].name[1..]]|
  }

  lemma SizesAfterCreate(t: Table, t1: Table, files: Files, name: seq<byte>, i: int)
    requires Sized(t) && SizesOk(t, files) && NewIn(t, t1, name, i) && name != [] && name[1..] !in files
    ensures SizesOk(t1, files[name[1..] := []])
  {
  }

  lemma NewNameHasNoFile(t: Table, s: State, name: seq<byte>)
    requires RegistryOk(t, s) && ValidPath(name) && !IsBox(t, name)
    ensures name[1..] !in FilesOf(s)
  {
  }

  lemma SizesAfterRemove(t: Table, t1: Table, files: Files, name: seq<byte>, i: int)
    requires TableOk(t) && SizesOk(t, files) && GoneFrom(t, t1, name, i)
    requires forall j :: 0 <= j < MAX_BOXES && !t.free[j] ==> ValidPath(t.boxes[j].name)
    ensures SizesOk(t1, files - {name[1..]})
  {
    forall j | 0 <= j < MAX_BOXES && !t1.free[j] ensures t.boxes[j].name[1..] != name[1..] {
      assert t.boxes[j].name == [SLASH] + t.boxes[j].name[1..];
      assert name == [SLASH] + name[1..];
    }
  }

  lemma BoxesArePaths(t: Table, s: State)
    requires RegistryOk(t, s)
    ensures forall j :: 0 <= j < MAX_BOXES && !t.free[j] ==> ValidPath(t.boxes[j].name)
  {
    forall j | 0 <= j < MAX_BOXES && !t.free[j] ensures ValidPath(t.boxes[j].name) {
      assert IsBox(t, t.boxes[j].name);
    }
  }

  /** One request keeps the sizes right. */
  lemma RequestKeepsSizes(t: Table, s: State, ws: seq<Worker>, r: Request)
    requires RegistryOk(t, s) && SizesOk(t, FilesOf(s)) && s.p.inodes <= MAX_BOXES && RequestOk(r, |ws|)
    ensures var o := Handle(t, s, ws, r); o.alive ==> RegistryOk(o.t, o.s) && SizesOk(o.t, FilesOf(o.s))
  {
    hide HandleCreate, HandleRemove, SizesOk, FilesOf, NewIn, GoneFrom, DirOk, BlocksOk, Dir;
    OneRequest(t, s, ws, r);
    var o := Handle(t, s, ws, r);
    if o.alive {
      match r
      case CreateRequest(me, name, pipe) =>
        CreateSurvives(t, s, ws, me, name, pipe);
        if !IsBox(t, name) {
          var i :| NewIn(t, o.t, name, i);
          BoxesArePaths(t, s);
          NewNameHasNoFile(t, s, name);
          SizesAfterCreate(t, o.t, FilesOf(s), name, i);
        }
      case RemoveRequest(me, name, pipe) =>
        RemoveTakesOneBox(t, s, ws, me, name, pipe);
        if Removes(t, ws, me, name, pipe) {
          var i :| GoneFrom(t, o.t, name, i);
          BoxesArePaths(t, s);
          SizesAfterRemove(t, o.t, FilesOf(s), name, i);
        }
    }
  }

  /** And so do all requests of a run. */
  lemma {:induction false} SizesAgree(t: Table, s: State, ws: seq<Worker>, requests: seq<Request>)
    requires RegistryOk(t, s) && SizesOk(t, FilesOf(s)) && s.p.inodes <= MAX_BOXES
    requires forall i :: 0 <= i < |requests| ==> RequestOk(requests[i], |ws|)
    ensures var o := Serve(t, s, ws, requests); o.alive ==> SizesOk(o.t, FilesOf(o.s))
    decreases |requests|
  {
    hide RegistryOk, Handle, SizesOk, FilesOf;
    if requests != [] {
      var front, last := requests[..|requests| - 1], requests[|requests| - 1];
      SizesAgree(t, s, ws, front);
      var mid := Serve(t, s, ws, front);
      if mid.alive {
        SizedAndIntact(mid.t, mid.s);
        RequestKeepsSizes(mid.t, mid.s, mid.ws, last);
      }
    }
  }

  lemma SizedAndIntact(t: Table, s: State)
    requires RegistryOk(t, s)
    ensures Sized(t) && Storage(s)
  {
  }

  lemma ArmedAreWorkers(ws: seq<Worker>)
    ensures |Armed(ws)| <= |ws|
  {
    FillsRange(Armed(ws), |ws|);
  }

  lemma FewerArmed(before: set<int>, after: set<int>, me: int)
    requires after <= before - {me}
    ensures |after| <= |before| && (me in before ==> |after| < |before|)
  {
    var gone := before - after;
    assert before == after + gone;
    assert |after + gone| == |after| + |gone|;
    if me in before {
      assert me in gone;
    }
  }

  /** The static arrays at start: every slot free and unnamed. */
  function EmptyTable(): Table {
    Table(seq(MAX_BOXES, _ => Box([], 0, 0, 0)), seq(MAX_BOXES, _ => true), 0)
  }

  /**
   * From an empty table and a fresh TécnicoFS with at most 64 inodes, whatever its memory held
   * before: after any requests without a fatal error the box counter is the number of files,
   * which is below the maximum, the boxes are the files, and each has its file's size.
   */
  lemma {:induction false} RegistryAgreesWithFiles(m: State, ws: seq<Worker>, requests: seq<Request>)
    requires Shape(m) && 0 < m.p.inodes <= MAX_BOXES && m.p.blocks > 0
    requires forall i :: 0 <= i < |requests| ==> RequestOk(requests[i], |ws|)
    ensures RegistryOk(EmptyTable(), Init(m).0) && Init(m).0.p == m.p
    ensures var o := Serve(EmptyTable(), Init(m).0, ws, requests);
      o.alive ==>
        RegistryOk(o.t, o.s) && o.t.count == |FilesOf(o.s)| < MAX_BOXES && SizesOk(o.t, FilesOf(o.s))
  {
    hide Init, Entries, Block, Dir, FilesOf;
    InitIsEmpty(m);
    var t := EmptyTable();
    assert TakenSet(Used(t.free)) == {};
    assert Abs(Init(m).0).files == FilesOf(Init(m).0) == map[];
    var o := Serve(t, Init(m).0, ws, requests);
    SizesAgree(t, Init(m).0, ws, requests);
    if o.alive {
      CountIsFileCount(o.t, o.s);
    }
  }
}
