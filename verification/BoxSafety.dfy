/** What every interleaving on a box keeps. */
module BoxSafety {
  import opened Bytes
  import opened Common
  import opened Counting
  import opened Directory
  import opened Inodes
  import opened TfsState
  import opened AbstractFs
  import opened TfsView
  import opened TfsRefinement
  import opened Messages
  import opened BoxProtocol

  // ---- the invariant ----

  /** The box's file. */
  ghost function BoxFile(s: Sys): seq<byte>
    requires s.box in s.fs.files
  {
    s.fs.files[s.box]
  }

  /** The file system under the box, and how it came about from `fs0`. */
  ghost predicate FsOk(s: Sys, fs0: Fs) {
    && s.p.Ok() && NameOk(s.box) && s.box in s.fs.files
    && Fits(s.fs)
    && (forall n :: n in s.fs.files ==> |s.fs.files[n]| <= s.p.blockSize)
    && (forall h :: h in s.fs.handles ==> 0 <= h < s.p.handles)
    && ObeysAll(s.p, fs0, s.log) && AbsRun(s.p, fs0, s.log).0 == s.fs
  }

  predicate HoldsAsPub(pub: Pub) {
    pub.Locked? || pub.Opened? || pub.Wrote? || pub.Resized? || pub.Notified? || pub.Full? || pub.Crashed?
  }

  predicate HoldsAsSub(u: Sub) {
    u.pc.Opening? || u.pc.Replaying? || u.pc.ReplayRead? || u.pc.ReplayGot? || u.pc.Testing? || u.pc.Crashed?
  }

  /** A session is inside the critical section iff it is the holder of the lock. */
  ghost predicate LockOk(s: Sys) {
    && (forall i :: 0 <= i < |s.pubs| ==> (HoldsAsPub(s.pubs[i]) <==> s.lock == ByPub(i)))
    && (forall i :: 0 <= i < |s.subs| ==> (HoldsAsSub(s.subs[i]) <==> s.lock == BySub(i)))
    && (s.lock.ByPub? ==> s.lock.i < |s.pubs|)
    && (s.lock.BySub? ==> s.lock.i < |s.subs|)
  }

  /** The bytes in the file beyond the accepted messages: the write of the lock holder. */
  function Tail(pub: Pub): seq<byte> {
    match pub
    case Wrote(m) => Encode(m)
    case Full(m, part) => if part <= |m| then Encode(m)[..part] else Encode(m)
    case _ => []
  }

  function PendingTail(s: Sys): seq<byte> {
    if s.lock.ByPub? && s.lock.i < |s.pubs| then Tail(s.pubs[s.lock.i]) else []
  }

  /** The file is the accepted messages in order, and then what the holder has just written. */
  ghost predicate FileOk(s: Sys)
    requires s.box in s.fs.files
  {
    && BoxFile(s) == EncodeAll(s.accepted) + PendingTail(s)
    && s.boxSize == |EncodeAll(s.accepted)|
    && MessagesOk(s.accepted)
  }

  ghost predicate PubOk(pub: Pub, box: seq<byte>, file: seq<byte>, handles: map<int, Handle>) {
    match pub
    case HasMessage(m) => MessageOk(m)
    case Locked(m) => MessageOk(m)
    case Opened(m, fd) => MessageOk(m) && fd in handles && handles[fd] == Handle(box, |file|)
    case Wrote(m) => MessageOk(m)
    case Full(m, part) => MessageOk(m) && part <= |m|
    case _ => true
  }

  ghost predicate PubsOk(s: Sys)
    requires s.box in s.fs.files
  {
    forall i :: 0 <= i < |s.pubs| ==> PubOk(s.pubs[i], s.box, BoxFile(s), s.fs.handles)
  }

  predicate HasFd(u: Sub) {
    !u.pc.Start? && !u.pc.Opening? && u.pc != SubPc.Crashed(false)
  }

  /** Between the size update and the broadcast the sleepers have yet to be woken. */
  predicate WakePending(s: Sys) {
    s.lock.ByPub? && s.lock.i < |s.pubs| && s.pubs[s.lock.i].Resized?
  }

  /** A session with a handle has received exactly the file up to the handle's position. */
  ghost predicate SubPosition(u: Sub, box: seq<byte>, file: seq<byte>, handles: map<int, Handle>) {
    && u.fd in handles && handles[u.fd].name == box
    && var pos := handles[u.fd].offset;
    && pos <= |file| && u.received == file[..pos]
    && match u.pc {
         case ReplayGot(bytes) => bytes != [] && u.offset + |bytes| == pos && bytes == file[u.offset..pos]
         case LiveGot(bytes) => bytes != [] && u.offset + |bytes| == pos && bytes == file[u.offset..pos]
         case Crashed(_) => u.offset <= pos
         case Ended(_) => u.offset <= pos
         case _ => u.offset == pos
       }
  }

  /** Replay sends the messages accepted so far, in one go; after it they are a prefix of the list. */
  ghost predicate ReplayOk(u: Sub, file: seq<byte>, accepted: seq<seq<byte>>) {
    match u.pc
    case Replaying => (u.offset == 0 && u.replayed == []) || (u.offset == |file| && u.replayed == accepted)
    case ReplayRead => u.offset == 0 && u.replayed == [] && |file| > 0
    case ReplayGot(bytes) => u.offset == 0 && u.replayed == [] && bytes == file
    case _ => u.replayed <= accepted
  }

  ghost predicate SubOk(u: Sub, box: seq<byte>, file: seq<byte>, handles: map<int, Handle>,
                        accepted: seq<seq<byte>>, boxSize: nat, wakePending: bool) {
    if !HasFd(u) then u.offset == 0 && u.received == [] && u.replayed == []
    else
      && SubPosition(u, box, file, handles)
      && ReplayOk(u, file, accepted)
      && (u.pc.LiveRead? ==> u.offset < |file|)
      && (u.pc.Asleep? ==> u.offset == boxSize || wakePending)
      && u.pc != Ended(true)
  }

  ghost predicate SubsOk(s: Sys)
    requires s.box in s.fs.files
  {
    forall i :: 0 <= i < |s.subs| ==>
      SubOk(s.subs[i], s.box, BoxFile(s), s.fs.handles, s.accepted, s.boxSize, WakePending(s))
  }

  /** Sessions do not share handles. */
  ghost predicate HandlesApart(s: Sys) {
    && (forall i, j :: 0 <= i < j < |s.subs| && HasFd(s.subs[i]) && HasFd(s.subs[j]) ==> s.subs[i].fd != s.subs[j].fd)
    && (forall i, j :: 0 <= i < |s.pubs| && 0 <= j < |s.subs| && s.pubs[i].Opened? && HasFd(s.subs[j]) ==>
          s.pubs[i].fd != s.subs[j].fd)
  }

  ghost function HandlesOn(fs: Fs, box: seq<byte>): set<int> {
    set h | h in fs.handles && fs.handles[h].name == box
  }

  ghost function BoxHandles(s: Sys): set<int> {
    HandlesOn(s.fs, s.box)
  }

  /** The subscribers that have opened the box. */
  ghost function Followers(subs: seq<Sub>): set<int> {
    set i | 0 <= i < |subs| && HasFd(subs[i])
  }

  /** Handles are never given back: to those at the start come one a subscriber and one an accepted message. */
  ghost predicate HandlesSpent(s: Sys, fs0: Fs) {
    |BoxHandles(s)| >= |HandlesOn(fs0, s.box)| + |Followers(s.subs)| + |s.accepted| +
      if s.lock.ByPub? && s.lock.i < |s.pubs| && (s.pubs[s.lock.i].Opened? || s.pubs[s.lock.i].Wrote?) then 1 else 0
  }

  ghost predicate Safe(s: Sys, fs0: Fs) {
    && FsOk(s, fs0) && LockOk(s) && FileOk(s)
    && PubsOk(s) && SubsOk(s) && HandlesApart(s) && HandlesSpent(s, fs0)
  }

  // ---- calls ----

  lemma CallKeepsFs(s: Sys, fs0: Fs, c: Call)
    requires FsOk(s, fs0) && WellFormed(c) && Obeys(s.fs, c)
    requires s.box in AbsStep(s.p, s.fs, c).0.files
    ensures FsOk(DoCall(s, c).0, fs0)
  {
    RulesKeepFits(s.p, s.fs, c);
    StaysSmall(s, fs0, c);
    var s1 := DoCall(s, c).0;
    assert s1.log[..|s1.log| - 1] == s.log;
  }

  lemma StaysSmall(s: Sys, fs0: Fs, c: Call)
    requires FsOk(s, fs0) && WellFormed(c) && Obeys(s.fs, c)
    ensures var fs := AbsStep(s.p, s.fs, c).0;
      && (forall n :: n in fs.files ==> |fs.files[n]| <= s.p.blockSize)
      && (forall h :: h in fs.handles ==> 0 <= h < s.p.handles)
  {
    hide Obeys, WellFormed, ObeysAll, AbsRun;
  }

  // ---- what each kind of call does to the box ----

  /** A session's own view survives any step that extends the file and leaves its handle alone. */
  lemma SubStable(u: Sub, s: Sys, s1: Sys)
    requires s.box in s.fs.files && s1.box in s1.fs.files && s1.box == s.box
    requires SubOk(u, s.box, BoxFile(s), s.fs.handles, s.accepted, s.boxSize, WakePending(s))
    requires BoxFile(s) <= BoxFile(s1) && s.accepted <= s1.accepted
    requires HasFd(u) ==> u.fd in s1.fs.handles && s1.fs.handles[u.fd] == s.fs.handles[u.fd]
    requires u.pc.Replaying? || u.pc.ReplayRead? || u.pc.ReplayGot? ==>
      BoxFile(s1) == BoxFile(s) && s1.accepted == s.accepted
    requires u.pc.Asleep? ==> s1.boxSize == s.boxSize || WakePending(s1)
    requires u.pc.Asleep? && WakePending(s) ==> WakePending(s1)
    ensures SubOk(u, s.box, BoxFile(s1), s1.fs.handles, s1.accepted, s1.boxSize, WakePending(s1))
  {
  }

  /** A foreign call leaves the box's file and every handle on it exactly as they were. */
  lemma ForeignCall(s: Sys, fs0: Fs, c: Call)
    requires FsOk(s, fs0) && IsForeign(s, c)
    ensures var s1 := DoCall(s, c).0;
      && FsOk(s1, fs0) && BoxFile(s1) == BoxFile(s)
      && (forall h :: h in s.fs.handles && s.fs.handles[h].name == s.box ==>
            h in s1.fs.handles && s1.fs.handles[h] == s.fs.handles[h])
  {
    var s1 := DoCall(s, c).0;
    ForeignFrame(s, c);
    CallKeepsFs(s, fs0, c);
  }

  lemma ForeignFrame(s: Sys, c: Call)
    requires s.p.Ok() && s.box in s.fs.files && Fits(s.fs) && IsForeign(s, c)
    ensures var fs := AbsStep(s.p, s.fs, c).0;
      && s.box in fs.files && fs.files[s.box] == s.fs.files[s.box]
      && (forall h :: h in s.fs.handles && s.fs.handles[h].name == s.box ==>
            h in fs.handles && fs.handles[h] == s.fs.handles[h])
  {
    NextHandleIsNew(s.p, s.fs);
    if c.OpenCall? {
      var files := OpenFiles(s.p, s.fs.files, c.name, c.mode).0;
      NextHandleIsNew(s.p, s.fs.(files := files));
    }
  }

  lemma NextHandleIsNew(p: Params, a: Fs)
    ensures NextHandle(p, a) == -1 || (0 <= NextHandle(p, a) < p.handles && NextHandle(p, a) !in a.handles)
  {
  }

  /** A session opens the box: nothing changes but a new handle, at 0 or at the end of the file. */
  lemma OpenBox(s: Sys, fs0: Fs, mode: Mode)
    requires FsOk(s, fs0) && mode in {APPEND, CREATE}
    ensures var (s1, r) := DoCall(s, OpenCall(Path(s), mode));
      && FsOk(s1, fs0) && s1.fs.files == s.fs.files
      && (r.value < 0 ==> s1.fs.handles == s.fs.handles)
      && (r.value >= 0 ==>
            && r.value !in s.fs.handles
            && s1.fs.handles == s.fs.handles[r.value := Handle(s.box, if mode.append then |BoxFile(s)| else 0)])
  {
    var c := OpenCall(Path(s), mode);
    assert Path(s)[1..] == s.box;
    NextHandleIsNew(s.p, s.fs);
    assert AbsStep(s.p, s.fs, c).0.files == s.fs.files;
    CallKeepsFs(s, fs0, c);
  }

  /** A session reads through its own handle: the bytes up to the end of the file, and nothing skipped. */
  lemma ReadBox(s: Sys, fs0: Fs, fd: int, len: nat)
    requires FsOk(s, fs0) && fd in s.fs.handles && s.fs.handles[fd].name == s.box && len > 0
    ensures var (s1, r) := DoCall(s, ReadCall(fd, len)); var pos := s.fs.handles[fd].offset; var file := BoxFile(s);
      && FsOk(s1, fs0) && s1.fs.files == s.fs.files && pos <= |file|
      && r.value == |r.bytes| && pos + |r.bytes| <= |file| && r.bytes == file[pos..pos + |r.bytes|]
      && |r.bytes| == (if pos + len < |file| then len else |file| - pos)
      && s1.fs.handles == s.fs.handles[fd := Handle(s.box, pos + |r.bytes|)]
  {
    CallKeepsFs(s, fs0, ReadCall(fd, len));
  }

  /** A publisher writes through a handle at the end of the file: the bytes that fit are appended. */
  lemma AppendToBox(s: Sys, fs0: Fs, fd: int, src: seq<byte>)
    requires FsOk(s, fs0) && fd in s.fs.handles && s.fs.handles[fd] == Handle(s.box, |BoxFile(s)|)
    requires 0 < |src| < TWO63
    ensures var (s1, r) := DoCall(s, WriteCall(fd, src)); var file := BoxFile(s);
      && FsOk(s1, fs0)
      && r.value <= |src|
      && (r.value < 0 ==> s1.fs == s.fs)
      && (r.value >= 0 ==>
            && BoxFile(s1) == file + src[..r.value]
            && s1.fs.handles == s.fs.handles[fd := Handle(s.box, |file| + r.value)])
  {
    hide ObeysAll, AbsRun, Fits, Splice, NonEmpty;
    var c := WriteCall(fd, src);
    assert |BoxFile(s)| <= s.p.blockSize;
    AppendSplice(BoxFile(s), src, s.p.blockSize - |BoxFile(s)|);
    CallKeepsFs(s, fs0, c);
  }

  lemma AppendSplice(file: seq<byte>, src: seq<byte>, room: nat)
    ensures Splice(file, |file|, src) == file + src
    ensures var n := if |src| > room then room else |src|; Splice(file, |file|, src[..n]) == file + src[..n]
  {
  }

  // ---- every step keeps the invariant ----

  lemma ReceiveOrClose(s: Sys, fs0: Fs, i: nat, pub: Pub)
    requires Safe(s, fs0) && i < |s.pubs| && s.pubs[i].Idle?
    requires pub == Closed || (pub.HasMessage? && MessageOk(pub.m))
    ensures Safe(SetPub(s, i, pub), fs0)
  {
    hide ObeysAll, AbsRun, Fits, SubOk, EncodeAll;
    var s1 := SetPub(s, i, pub);
    assert WakePending(s1) == WakePending(s);
    assert s.lock != ByPub(i);
    assert BoxHandles(s1) == BoxHandles(s);
    FsUntouched(s, s1, fs0);
  }

  lemma FsUntouched(s: Sys, s1: Sys, fs0: Fs)
    requires FsOk(s, fs0) && s1.fs == s.fs && s1.p == s.p && s1.box == s.box && s1.log == s.log
    ensures FsOk(s1, fs0)
  {
  }

  lemma PubLocks(s: Sys, fs0: Fs, i: nat)
    requires Safe(s, fs0) && PubEnabled(s, i) && s.pubs[i].HasMessage?
    ensures Safe(PubNext(s, i), fs0)
  {
    hide ObeysAll, AbsRun, Fits, SubOk, EncodeAll;
    var s1 := PubNext(s, i);
    FsUntouched(s, s1, fs0);
    assert BoxHandles(s1) == BoxHandles(s);
  }

  lemma PubOpens(s: Sys, fs0: Fs, i: nat)
    requires Safe(s, fs0) && PubEnabled(s, i) && s.pubs[i].Locked?
    ensures Safe(PubNext(s, i), fs0)
  {
    hide ObeysAll, AbsRun, Fits, SubOk, EncodeAll, DoCall;
    OpenBox(s, fs0, APPEND);
    var (t, r) := DoCall(s, OpenCall(Path(s), APPEND));
    var s1 := PubNext(s, i);
    FsUntouched(t, s1, fs0);
    forall j | 0 <= j < |s.subs|
      ensures SubOk(s1.subs[j], s.box, BoxFile(s1), s1.fs.handles, s1.accepted, s1.boxSize, WakePending(s1))
    {
      SubHasHandle(s.subs[j], s);
      SubStable(s.subs[j], s, s1);
    }
    if r.value >= 0 {
      NewHandleCounts(s, s1, r.value);
    } else {
      assert BoxHandles(s1) == BoxHandles(s);
    }
    SubHandlesTaken(s);
  }

  lemma PubWrites(s: Sys, fs0: Fs, i: nat)
    requires Safe(s, fs0) && PubEnabled(s, i) && s.pubs[i].Opened?
    ensures Safe(PubNext(s, i), fs0)
  {
    hide ObeysAll, AbsRun, Fits, SubOk, EncodeAll, DoCall, SubsOk, HandlesApart, HandlesSpent;
    var Opened(m, fd) := s.pubs[i];
    assert s.lock == ByPub(i);
    assert PubOk(s.pubs[i], s.box, BoxFile(s), s.fs.handles);
    AppendToBox(s, fs0, fd, Encode(m));
    var (t, r) := DoCall(s, WriteCall(fd, Encode(m)));
    var s1 := PubNext(s, i);
    FsUntouched(t, s1, fs0);
    if r.value == |m| + 1 {
      assert Encode(m)[..r.value] == Encode(m);
    }
    WriteKeepsSubs(s, fs0, i);
    WriteKeepsSessions(s, fs0, i);
  }

  lemma WriteKeepsSessions(s: Sys, fs0: Fs, i: nat)
    requires Safe(s, fs0) && PubEnabled(s, i) && s.pubs[i].Opened?
    ensures var s1 := PubNext(s, i);
      s1.box in s1.fs.files && PubsOk(s1) && HandlesApart(s1) && HandlesSpent(s1, fs0) && LockOk(s1)
  {
    hide ObeysAll, AbsRun, Fits, SubOk, EncodeAll, DoCall, SubsOk;
    var Opened(m, fd) := s.pubs[i];
    assert s.lock == ByPub(i);
    assert PubOk(s.pubs[i], s.box, BoxFile(s), s.fs.handles);
    AppendToBox(s, fs0, fd, Encode(m));
    assert BoxHandles(PubNext(s, i)) == BoxHandles(s);
  }

  lemma WriteKeepsSubs(s: Sys, fs0: Fs, i: nat)
    requires Safe(s, fs0) && PubEnabled(s, i) && s.pubs[i].Opened?
    ensures s.box in PubNext(s, i).fs.files && SubsOk(PubNext(s, i))
  {
    hide ObeysAll, AbsRun, Fits, SubOk, EncodeAll, DoCall;
    var Opened(m, fd) := s.pubs[i];
    assert PubOk(s.pubs[i], s.box, BoxFile(s), s.fs.handles);
    AppendToBox(s, fs0, fd, Encode(m));
    var s1 := PubNext(s, i);
    SubHandlesTaken(s);
    forall j | 0 <= j < |s.subs|
      ensures SubOk(s1.subs[j], s.box, BoxFile(s1), s1.fs.handles, s1.accepted, s1.boxSize, WakePending(s1))
    {
      SubStable(s.subs[j], s, s1);
    }
  }

  lemma PubResizes(s: Sys, fs0: Fs, i: nat)
    requires Safe(s, fs0) && PubEnabled(s, i) && s.pubs[i].Wrote?
    ensures Safe(PubNext(s, i), fs0)
  {
    hide ObeysAll, AbsRun, Fits, SubOk, EncodeAll, HandlesApart, Followers;
    var m := s.pubs[i].m;
    var s1 := PubNext(s, i);
    FsUntouched(s, s1, fs0);
    assert s.lock == ByPub(i);
    EncodeAllSnoc(s.accepted, m);
    assert BoxFile(s) == EncodeAll(s.accepted) + Encode(m);
    assert |BoxFile(s)| <= s.p.blockSize;
    SameFdsApart(s, s1);
    assert BoxHandles(s1) == BoxHandles(s);
    SubHandlesTaken(s);
    forall j | 0 <= j < |s.subs|
      ensures SubOk(s1.subs[j], s.box, BoxFile(s1), s1.fs.handles, s1.accepted, s1.boxSize, WakePending(s1))
    {
      SubStable(s.subs[j], s, s1);
    }
  }

  lemma PubNotifies(s: Sys, fs0: Fs, i: nat)
    requires Safe(s, fs0) && PubEnabled(s, i) && s.pubs[i].Resized?
    ensures Safe(PubNext(s, i), fs0)
  {
    hide ObeysAll, AbsRun, Fits, EncodeAll, SubOk, HandlesApart, Followers;
    var s1 := PubNext(s, i);
    FsUntouched(s, s1, fs0);
    assert s.lock == ByPub(i);
    SameFdsApart(s, s1);
    assert BoxHandles(s1) == BoxHandles(s);
    forall j | 0 <= j < |s.subs|
      ensures SubOk(s1.subs[j], s.box, BoxFile(s1), s1.fs.handles, s1.accepted, s1.boxSize, WakePending(s1))
    {
      SubWakes(s.subs[j], s, s1);
    }
  }

  /** A session's view after the broadcast: whoever slept is awake, with nothing lost. */
  lemma SubWakes(u: Sub, s: Sys, s1: Sys)
    requires s.box in s.fs.files && s1.fs == s.fs && s1.accepted == s.accepted && s1.boxSize == s.boxSize
    requires SubOk(u, s.box, BoxFile(s), s.fs.handles, s.accepted, s.boxSize, WakePending(s))
    ensures SubOk(if u.pc.Asleep? then u.(pc := Woken) else u, s.box, s1.fs.files[s.box], s1.fs.handles,
                  s1.accepted, s1.boxSize, WakePending(s1))
  {
  }

  lemma PubUnlocks(s: Sys, fs0: Fs, i: nat)
    requires Safe(s, fs0) && PubEnabled(s, i) && s.pubs[i].Notified?
    ensures Safe(PubNext(s, i), fs0)
  {
    hide ObeysAll, AbsRun, Fits, SubOk, EncodeAll;
    var s1 := PubNext(s, i);
    FsUntouched(s, s1, fs0);
    assert s.lock == ByPub(i);
    assert BoxHandles(s1) == BoxHandles(s);
    assert WakePending(s1) == WakePending(s);
  }

  lemma PubStepKeeps(s: Sys, fs0: Fs, i: nat)
    requires Safe(s, fs0) && PubEnabled(s, i)
    ensures Safe(PubNext(s, i), fs0)
  {
    hide Safe, PubNext;
    match s.pubs[i]
    case HasMessage(_) => PubLocks(s, fs0, i);
    case Locked(_) => PubOpens(s, fs0, i);
    case Opened(_, _) => PubWrites(s, fs0, i);
    case Wrote(_) => PubResizes(s, fs0, i);
    case Resized => PubNotifies(s, fs0, i);
    case Notified => PubUnlocks(s, fs0, i);
  }

  lemma SubHasHandle(u: Sub, s: Sys)
    requires s.box in s.fs.files && SubOk(u, s.box, BoxFile(s), s.fs.handles, s.accepted, s.boxSize, WakePending(s))
    ensures HasFd(u) ==> u.fd in s.fs.handles && s.fs.handles[u.fd].name == s.box
  {
  }

  lemma SubHandlesTaken(s: Sys)
    requires s.box in s.fs.files && SubsOk(s)
    ensures forall j :: 0 <= j < |s.subs| && HasFd(s.subs[j]) ==> s.subs[j].fd in s.fs.handles
  {
    forall j | 0 <= j < |s.subs| && HasFd(s.subs[j]) ensures s.subs[j].fd in s.fs.handles {
      SubHasHandle(s.subs[j], s);
    }
  }

  lemma NewHandleCounts(s: Sys, s1: Sys, h: int)
    requires s1.box == s.box && h !in s.fs.handles && h in s1.fs.handles && s1.fs.handles[h].name == s.box
    requires s1.fs.handles == s.fs.handles[h := s1.fs.handles[h]]
    ensures |BoxHandles(s1)| == |BoxHandles(s)| + 1
  {
    assert BoxHandles(s1) == BoxHandles(s) + {h};
  }

  /** The handle numbers of the sessions are as before. */
  ghost predicate SameFds(s: Sys, s1: Sys) {
    && |s1.pubs| == |s.pubs| && |s1.subs| == |s.subs|
    && (forall j :: 0 <= j < |s.subs| ==> (HasFd(s1.subs[j]) <==> HasFd(s.subs[j])) && s1.subs[j].fd == s.subs[j].fd)
    && (forall j :: 0 <= j < |s.pubs| && s1.pubs[j].Opened? ==> s.pubs[j].Opened? && s1.pubs[j].fd == s.pubs[j].fd)
  }

  lemma SameFdsApart(s: Sys, s1: Sys)
    requires SameFds(s, s1) && HandlesApart(s)
    ensures HandlesApart(s1) && Followers(s1.subs) == Followers(s.subs)
  {
  }

  /** A subscriber moves on without a TFS call, perhaps taking or releasing the lock. */
  lemma SubMoves(s: Sys, fs0: Fs, i: nat, u: Sub, lock: Holder)
    requires Safe(s, fs0) && i < |s.subs|
    requires HoldsAsSub(u) <==> lock == BySub(i)
    requires lock == s.lock || (s.lock == Nobody && lock == BySub(i)) || (s.lock == BySub(i) && lock == Nobody)
    requires HasFd(u) <==> HasFd(s.subs[i])
    requires u.fd == s.subs[i].fd
    requires SubOk(u, s.box, BoxFile(s), s.fs.handles, s.accepted, s.boxSize, WakePending(s))
    ensures Safe(SetSub(s.(lock := lock), i, u), fs0)
  {
    hide ObeysAll, AbsRun, Fits, SubOk, EncodeAll, HandlesApart, Followers;
    var s1 := SetSub(s.(lock := lock), i, u);
    FsUntouched(s, s1, fs0);
    SameFdsApart(s, s1);
    assert BoxHandles(s1) == BoxHandles(s);
    assert WakePending(s1) == WakePending(s);
    assert PendingTail(s1) == PendingTail(s);
  }

  /** Inside the critical section of a subscriber the counters agree with the file. */
  lemma UnderLock(s: Sys, fs0: Fs, i: nat)
    requires Safe(s, fs0) && i < |s.subs| && HoldsAsSub(s.subs[i])
    ensures s.lock == BySub(i) && BoxFile(s) == EncodeAll(s.accepted) && s.boxSize == |BoxFile(s)| <= s.p.blockSize
    ensures !WakePending(s)
  {
    hide ObeysAll, AbsRun, Fits, SubOk, EncodeAll;
    assert EncodeAll(s.accepted) + [] == EncodeAll(s.accepted);
  }

  lemma SubOpens(s: Sys, fs0: Fs, i: nat)
    requires Safe(s, fs0) && SubEnabled(s, i) && s.subs[i].pc.Opening?
    ensures Safe(SubNext(s, i), fs0)
  {
    hide ObeysAll, AbsRun, Fits, SubsOk, EncodeAll, DoCall, HandlesApart, HandlesSpent, Followers;
    UnderLock(s, fs0, i);
    OpenBox(s, fs0, CREATE);
    var t := DoCall(s, OpenCall(Path(s), CREATE)).0;
    FsUntouched(t, SubNext(s, i), fs0);
    OpenKeepsSubs(s, fs0, i);
    OpenKeepsHandles(s, fs0, i);
  }

  /** One more subscriber has a handle, and nobody else that one. */
  lemma NewFdApart(s: Sys, i: nat, u: Sub)
    requires HandlesApart(s) && i < |s.subs| && !HasFd(s.subs[i]) && HasFd(u)
    requires forall j :: 0 <= j < |s.subs| && HasFd(s.subs[j]) ==> s.subs[j].fd != u.fd
    requires forall j :: 0 <= j < |s.pubs| ==> !s.pubs[j].Opened?
    ensures HandlesApart(SetSub(s, i, u))
    ensures Followers(s.subs[i := u]) == Followers(s.subs) + {i} && i !in Followers(s.subs)
  {
  }

  lemma ApartDependsOnSessions(s: Sys, s1: Sys)
    requires HandlesApart(s) && s1.pubs == s.pubs && s1.subs == s.subs
    ensures HandlesApart(s1)
  {
  }

  lemma OpenKeepsHandles(s: Sys, fs0: Fs, i: nat)
    requires Safe(s, fs0) && SubEnabled(s, i) && s.subs[i].pc.Opening?
    ensures HandlesApart(SubNext(s, i)) && HandlesSpent(SubNext(s, i), fs0)
  {
    hide ObeysAll, AbsRun, Fits, SubsOk, EncodeAll, DoCall, FileOk, HandlesApart, Followers;
    OpenBox(s, fs0, CREATE);
    var r := DoCall(s, OpenCall(Path(s), CREATE)).1;
    var s1 := SubNext(s, i);
    SubHandlesTaken(s);
    if r.value >= 0 {
      NewHandleCounts(s, s1, r.value);
      var u := s.subs[i].(pc := Replaying, fd := r.value);
      NewFdApart(s, i, u);
      ApartDependsOnSessions(SetSub(s, i, u), s1);
    } else {
      SameFdsApart(s, s1);
      assert BoxHandles(s1) == BoxHandles(s);
    }
  }

  lemma OpenKeepsSubs(s: Sys, fs0: Fs, i: nat)
    requires Safe(s, fs0) && SubEnabled(s, i) && s.subs[i].pc.Opening?
    ensures s.box in SubNext(s, i).fs.files && SubsOk(SubNext(s, i))
  {
    hide ObeysAll, AbsRun, Fits, SubOk, EncodeAll, DoCall, PubsOk, HandlesApart, HandlesSpent;
    UnderLock(s, fs0, i);
    OpenBox(s, fs0, CREATE);
    var s1 := SubNext(s, i);
    SubHandlesTaken(s);
    forall j | 0 <= j < |s.subs|
      ensures SubOk(s1.subs[j], s.box, BoxFile(s1), s1.fs.handles, s1.accepted, s1.boxSize, WakePending(s1))
    {
      if j != i {
        SubStable(s.subs[j], s, s1);
      } else if s1.subs[i].pc.Replaying? {
        FreshSubOk(s, s1, i, s1.subs[i].fd);
      } else {
        FailedSubOk(s, s1, i);
      }
    }
  }

  lemma FreshSubOk(s: Sys, s1: Sys, i: nat, fd: int)
    requires s.box in s.fs.files && i < |s.subs| && s.subs[i].pc.Opening?
    requires SubOk(s.subs[i], s.box, BoxFile(s), s.fs.handles, s.accepted, s.boxSize, WakePending(s))
    requires s1.fs.files == s.fs.files && s1.box == s.box
    requires fd in s1.fs.handles && s1.fs.handles[fd] == Handle(s.box, 0)
    ensures SubOk(s.subs[i].(pc := Replaying, fd := fd), s.box, BoxFile(s1), s1.fs.handles,
                  s1.accepted, s1.boxSize, WakePending(s1))
  {
  }

  lemma FailedSubOk(s: Sys, s1: Sys, i: nat)
    requires s.box in s.fs.files && i < |s.subs| && s.subs[i].pc.Opening?
    requires SubOk(s.subs[i], s.box, BoxFile(s), s.fs.handles, s.accepted, s.boxSize, WakePending(s))
    requires s1.fs.files == s.fs.files && s1.box == s.box
    ensures SubOk(s.subs[i].(pc := SubPc.Crashed(false)), s.box, BoxFile(s1), s1.fs.handles,
                  s1.accepted, s1.boxSize, WakePending(s1))
  {
  }

  /** What a read by session `i` does to everything but the session itself. */
  lemma SubReads(s: Sys, fs0: Fs, i: nat, len: nat, u: Sub, lock: Holder)
    requires Safe(s, fs0) && i < |s.subs| && HasFd(s.subs[i]) && len > 0
    requires s.subs[i].fd in s.fs.handles && s.fs.handles[s.subs[i].fd].name == s.box
    requires HasFd(u) && u.fd == s.subs[i].fd
    requires HoldsAsSub(u) <==> lock == BySub(i)
    requires lock == s.lock || (s.lock == BySub(i) && lock == Nobody)
    requires s.box in DoCall(s, ReadCall(u.fd, len)).0.fs.files
    requires var s1 := DoCall(s, ReadCall(u.fd, len)).0;
      SubOk(u, s.box, BoxFile(s1), s1.fs.handles, s1.accepted, s1.boxSize, WakePending(s1))
    ensures Safe(SetSub(DoCall(s, ReadCall(u.fd, len)).0.(lock := lock), i, u), fs0)
  {
    hide ObeysAll, AbsRun, Fits, SubsOk, EncodeAll, DoCall, HandlesApart, Followers;
    ReadBox(s, fs0, u.fd, len);
    var t := DoCall(s, ReadCall(u.fd, len)).0;
    var s1 := SetSub(t.(lock := lock), i, u);
    FsUntouched(t, s1, fs0);
    SameFdsApart(s, s1);
    assert BoxHandles(s1) == BoxHandles(s);
    assert PendingTail(s1) == PendingTail(s);
    ReadKeepsSubs(s, fs0, i, len, u, lock);
  }

  lemma ReadKeepsSubs(s: Sys, fs0: Fs, i: nat, len: nat, u: Sub, lock: Holder)
    requires Safe(s, fs0) && i < |s.subs| && HasFd(s.subs[i]) && len > 0
    requires s.subs[i].fd in s.fs.handles && s.fs.handles[s.subs[i].fd].name == s.box
    requires HasFd(u) && u.fd == s.subs[i].fd
    requires lock == s.lock || (s.lock == BySub(i) && lock == Nobody)
    requires s.box in DoCall(s, ReadCall(u.fd, len)).0.fs.files
    requires var s1 := DoCall(s, ReadCall(u.fd, len)).0;
      SubOk(u, s.box, BoxFile(s1), s1.fs.handles, s1.accepted, s1.boxSize, WakePending(s1))
    ensures SubsOk(SetSub(DoCall(s, ReadCall(u.fd, len)).0.(lock := lock), i, u))
  {
    hide ObeysAll, AbsRun, Fits, SubOk, EncodeAll, DoCall, FileOk, PubsOk, HandlesApart, HandlesSpent, LockOk;
    ReadBox(s, fs0, u.fd, len);
    var t := DoCall(s, ReadCall(u.fd, len)).0;
    var s1 := SetSub(t.(lock := lock), i, u);
    forall j | 0 <= j < |s.subs|
      ensures SubOk(s1.subs[j], s.box, BoxFile(s1), s1.fs.handles, s1.accepted, s1.boxSize, WakePending(s1))
    {
      if j != i {
        SubHasHandle(s.subs[j], s);
        FdsDiffer(s, i, j);
        SubStable(s.subs[j], s, s1);
      }
    }
  }

  lemma FdsDiffer(s: Sys, i: nat, j: nat)
    requires HandlesApart(s) && i < |s.subs| && j < |s.subs| && i != j && HasFd(s.subs[i])
    ensures HasFd(s.subs[j]) ==> s.subs[j].fd != s.subs[i].fd
  {
  }

  /** The replay read returns the whole file, which is the accepted messages. */
  lemma SubReplayReads(s: Sys, fs0: Fs, i: nat)
    requires Safe(s, fs0) && SubEnabled(s, i) && s.subs[i].pc.ReplayRead?
    ensures Safe(SubNext(s, i), fs0)
  {
    hide ObeysAll, AbsRun, Fits, EncodeAll, DoCall, LockOk, PubsOk, HandlesApart, HandlesSpent;
    UnderLock(s, fs0, i);
    var u := s.subs[i];
    assert SubOk(u, s.box, BoxFile(s), s.fs.handles, s.accepted, s.boxSize, WakePending(s));
    ReadBox(s, fs0, u.fd, s.p.blockSize);
    var (s1, r) := DoCall(s, ReadCall(u.fd, s.p.blockSize));
    assert r.bytes == BoxFile(s) && r.value > 0;
    SubReads(s, fs0, i, s.p.blockSize, u.(pc := ReplayGot(r.bytes), received := u.received + r.bytes), s.lock);
  }

  /** A live read, without the lock, still finds at least one new byte. */
  lemma SubLiveReads(s: Sys, fs0: Fs, i: nat)
    requires Safe(s, fs0) && SubEnabled(s, i) && s.subs[i].pc.LiveRead?
    ensures Safe(SubNext(s, i), fs0) && DoCall(s, ReadCall(s.subs[i].fd, MESSAGE_LENGTH)).1.value > 0
  {
    hide ObeysAll, AbsRun, Fits, EncodeAll, DoCall, PubsOk, FileOk, HandlesApart, HandlesSpent;
    var u := s.subs[i];
    assert SubOk(u, s.box, BoxFile(s), s.fs.handles, s.accepted, s.boxSize, WakePending(s));
    ReadBox(s, fs0, u.fd, MESSAGE_LENGTH);
    var (s1, r) := DoCall(s, ReadCall(u.fd, MESSAGE_LENGTH));
    var pos := s.fs.handles[u.fd].offset;
    assert BoxFile(s)[..pos] + BoxFile(s)[pos..pos + |r.bytes|] == BoxFile(s)[..pos + |r.bytes|];
    SubReads(s, fs0, i, MESSAGE_LENGTH, u.(pc := LiveGot(r.bytes), received := u.received + r.bytes), s.lock);
  }

  lemma UnreadDoesNotWrap(s: Sys, u: Sub)
    requires u.offset <= s.boxSize < TWO64
    ensures Unread(s, u) == s.boxSize - u.offset
  {
  }

  lemma SubTests(s: Sys, fs0: Fs, i: nat)
    requires Safe(s, fs0) && SubEnabled(s, i) && (s.subs[i].pc.Testing? || s.subs[i].pc.Replaying?)
    ensures s.subs[i].offset <= s.boxSize == |BoxFile(s)| && Unread(s, s.subs[i]) == s.boxSize - s.subs[i].offset
    ensures Safe(SubNext(s, i), fs0)
  {
    hide ObeysAll, AbsRun, Fits, EncodeAll, LockOk, PubsOk, HandlesApart, HandlesSpent;
    UnderLock(s, fs0, i);
    var u := s.subs[i];
    assert SubOk(u, s.box, BoxFile(s), s.fs.handles, s.accepted, s.boxSize, WakePending(s));
    UnreadDoesNotWrap(s, u);
    var pc :=
      if u.pc.Replaying? then if Unread(s, u) > 0 then ReplayRead else Following
      else if Unread(s, u) == 0 then Asleep else LiveRead;
    SubMoves(s, fs0, i, u.(pc := pc), if pc.ReplayRead? then s.lock else Nobody);
  }

  lemma SubFinishesReplay(s: Sys, fs0: Fs, i: nat)
    requires Safe(s, fs0) && SubEnabled(s, i) && s.subs[i].pc.ReplayGot?
    ensures Safe(SubNext(s, i), fs0)
  {
    hide ObeysAll, AbsRun, Fits, EncodeAll, LockOk, PubsOk, HandlesApart, HandlesSpent, Split;
    var u := s.subs[i];
    assert SubOk(u, s.box, BoxFile(s), s.fs.handles, s.accepted, s.boxSize, WakePending(s));
    UnderLock(s, fs0, i);
    SplitEncodeAll(s.accepted);
    var bytes := u.pc.bytes;
    var u1 := u.(pc := Replaying, offset := u.offset + |bytes|, replayed := u.replayed + Split(bytes));
    SubMoves(s, fs0, i, u1, s.lock);
  }

  /** The pipe breaks in the middle of replay: what was sent is a prefix of the accepted messages. */
  lemma SubFailing(s: Sys, fs0: Fs, i: nat, sent: nat)
    requires Safe(s, fs0) && Enabled(s, SubFails(i, sent))
    ensures Safe(Next(s, SubFails(i, sent)), fs0)
  {
    hide ObeysAll, AbsRun, Fits, EncodeAll, LockOk, PubsOk, HandlesApart, HandlesSpent, Split;
    var u := s.subs[i];
    assert SubOk(u, s.box, BoxFile(s), s.fs.handles, s.accepted, s.boxSize, WakePending(s));
    UnderLock(s, fs0, i);
    SplitEncodeAll(s.accepted);
    var u1 := u.(pc := SubPc.Crashed(true), replayed := u.replayed + Split(u.pc.bytes)[..sent]);
    SubMoves(s, fs0, i, u1, s.lock);
    assert s.(lock := s.lock) == s;
  }

  lemma SubDelivers(s: Sys, fs0: Fs, i: nat)
    requires Safe(s, fs0) && SubEnabled(s, i) && s.subs[i].pc.LiveGot?
    ensures Safe(SubNext(s, i), fs0)
  {
    hide ObeysAll, AbsRun, Fits, EncodeAll, PubsOk, HandlesApart, HandlesSpent;
    var u := s.subs[i];
    assert SubOk(u, s.box, BoxFile(s), s.fs.handles, s.accepted, s.boxSize, WakePending(s));
    SubMoves(s, fs0, i, u.(pc := Following, offset := u.offset + |u.pc.bytes|), s.lock);
  }

  lemma SubLocks(s: Sys, fs0: Fs, i: nat)
    requires Safe(s, fs0) && SubEnabled(s, i) && (s.subs[i].pc.Start? || s.subs[i].pc.Following? || s.subs[i].pc.Woken?)
    ensures Safe(SubNext(s, i), fs0)
  {
    hide ObeysAll, AbsRun, Fits, EncodeAll, PubsOk, HandlesApart, HandlesSpent;
    var u := s.subs[i];
    assert SubOk(u, s.box, BoxFile(s), s.fs.handles, s.accepted, s.boxSize, WakePending(s));
    SubMoves(s, fs0, i, u.(pc := if u.pc.Start? then Opening else Testing), BySub(i));
  }

  lemma SubStepKeeps(s: Sys, fs0: Fs, i: nat)
    requires Safe(s, fs0) && SubEnabled(s, i)
    ensures Safe(SubNext(s, i), fs0)
  {
    hide Safe, SubNext;
    match s.subs[i].pc
    case Start => SubLocks(s, fs0, i);
    case Following => SubLocks(s, fs0, i);
    case Woken => SubLocks(s, fs0, i);
    case Opening => SubOpens(s, fs0, i);
    case Replaying => SubTests(s, fs0, i);
    case Testing => SubTests(s, fs0, i);
    case ReplayRead => SubReplayReads(s, fs0, i);
    case LiveRead => SubLiveReads(s, fs0, i);
    case ReplayGot(_) => SubFinishesReplay(s, fs0, i);
    case LiveGot(_) => SubDelivers(s, fs0, i);
  }

  lemma SubPauses(s: Sys, fs0: Fs, i: nat, pc: SubPc)
    requires Safe(s, fs0) && i < |s.subs|
    requires (s.subs[i].pc.Asleep? && pc == Woken) || (s.subs[i].pc.LiveGot? && pc == Ended(false))
    ensures Safe(SetSub(s, i, s.subs[i].(pc := pc)), fs0)
  {
    hide ObeysAll, AbsRun, Fits, EncodeAll, PubsOk, HandlesApart, HandlesSpent;
    var u := s.subs[i];
    assert SubOk(u, s.box, BoxFile(s), s.fs.handles, s.accepted, s.boxSize, WakePending(s));
    SubMoves(s, fs0, i, u.(pc := pc), s.lock);
    assert s.(lock := s.lock) == s;
  }

  lemma ForeignKeeps(s: Sys, fs0: Fs, c: Call)
    requires Safe(s, fs0) && IsForeign(s, c)
    ensures Safe(DoCall(s, c).0, fs0)
  {
    hide ObeysAll, AbsRun, Fits, SubOk, EncodeAll, DoCall, IsForeign;
    ForeignCall(s, fs0, c);
    var s1 := DoCall(s, c).0;
    FewerHandles(s, s1);
    SubHandlesTaken(s);
    forall j | 0 <= j < |s.subs|
      ensures SubOk(s1.subs[j], s.box, BoxFile(s1), s1.fs.handles, s1.accepted, s1.boxSize, WakePending(s1))
    {
      SubHasHandle(s.subs[j], s);
      SubStable(s.subs[j], s, s1);
    }
  }

  lemma FewerHandles(s: Sys, s1: Sys)
    requires s1.box == s.box
    requires forall h :: h in s.fs.handles && s.fs.handles[h].name == s.box ==>
      h in s1.fs.handles && s1.fs.handles[h] == s.fs.handles[h]
    ensures |BoxHandles(s1)| >= |BoxHandles(s)|
  {
    forall h | h in BoxHandles(s) ensures h in BoxHandles(s1) {
      assert s1.fs.handles[h] == s.fs.handles[h];
    }
    var extra := BoxHandles(s1) - BoxHandles(s);
    assert BoxHandles(s1) == BoxHandles(s) + extra;
    assert |BoxHandles(s) + extra| == |BoxHandles(s)| + |extra|;
  }

  lemma HaltKeeps(s: Sys, fs0: Fs)
    requires Safe(s, fs0)
    ensures Safe(s.(halted := true), fs0)
  {
    hide ObeysAll, AbsRun, Fits, SubOk, EncodeAll;
    var s1 := s.(halted := true);
    FsUntouched(s, s1, fs0);
    assert BoxHandles(s1) == BoxHandles(s) && WakePending(s1) == WakePending(s);
  }

  /** Every enabled action of any session, in any order, keeps the invariant. */
  lemma StepKeepsSafe(s: Sys, fs0: Fs, a: Action)
    requires Safe(s, fs0) && Enabled(s, a)
    ensures Safe(Next(s, a), fs0)
  {
    hide Safe, PubNext, SubNext, IsForeign, PubEnabled, SubEnabled;
    match a
    case PubReceive(i, m) => ReceiveOrClose(s, fs0, i, HasMessage(m));
    case PubClose(i) => ReceiveOrClose(s, fs0, i, Closed);
    case PubStep(i) => PubStepKeeps(s, fs0, i);
    case SubStep(i) => SubStepKeeps(s, fs0, i);
    case SubSpurious(i) => SubPauses(s, fs0, i, Woken);
    case SubLeave(i) => SubPauses(s, fs0, i, Ended(false));
    case SubFails(i, sent) => SubFailing(s, fs0, i, sent);
    case Foreign(c) => ForeignKeeps(s, fs0, c);
    case Exit => HaltKeeps(s, fs0);
  }

  // ---- main results, over every run ----

  /** The run starts on a file system that some intact TécnicoFS state stands for. */
  ghost predicate StartsOn(c: State, s0: Sys) {
    Inv(c) && Initial(s0) && c.p == s0.p && Abs(c) == s0.fs
  }

  lemma InitialIsSafe(c: State, s0: Sys)
    requires StartsOn(c, s0)
    ensures Safe(s0, s0.fs)
  {
    hide InumAt, NameAt, Names, DirMap, BlockMap, Block, Entries, FilesOf, Dir;
    HandlesAreFits(c);
    FilesAreShort(c);
    assert EncodeAll([]) + [] == [];
  }

  /** Every run keeps the invariant... */
  lemma {:induction false} RunKeepsSafe(s: Sys, fs0: Fs, actions: seq<Action>, t: Sys)
    requires Safe(s, fs0) && IsRun(s, actions, t)
    ensures Safe(t, fs0)
    decreases |actions|
  {
    hide Safe, Next, Enabled;
    if actions != [] {
      var front, last := actions[..|actions| - 1], actions[|actions| - 1];
      var mid :| IsRun(s, front, mid) && mid.p.Ok() && Enabled(mid, last) && t == Next(mid, last);
      RunKeepsSafe(s, fs0, front, mid);
      StepKeepsSafe(mid, fs0, last);
    }
  }

  /** ...and so it holds in every run from the start. */
  lemma RunIsSafe(c: State, s0: Sys, actions: seq<Action>, s: Sys)
    requires StartsOn(c, s0) && IsRun(s0, actions, s)
    ensures Safe(s, s0.fs)
  {
    hide Safe, IsRun, StartsOn;
    InitialIsSafe(c, s0);
    RunKeepsSafe(s0, s0.fs, actions, s);
  }

  /** Down to the flat array: the box's file is the one the sessions' calls leave in TécnicoFS. */
  lemma FileIsOnTheArray(c: State, s0: Sys, actions: seq<Action>, s: Sys)
    requires StartsOn(c, s0) && IsRun(s0, actions, s)
    ensures ObeysAll(c.p, Abs(c), s.log)
    ensures s.box in s.fs.files && FilesOf(Run(c, s.log).0) == s.fs.files
  {
    hide InumAt, NameAt, Names, DirMap, BlockMap, Block, Entries, FilesOf, Dir, IsRun, Initial, SubOk, Run;
    RunIsSafe(c, s0, actions, s);
    SameParams(c, s0, actions, s);
    assert Abs(Run(c, s.log).0) == AbsRun(c.p, Abs(c), s.log).0 == s.fs;
  }

  /**
   * Run the calls the sessions made on TécnicoFS, and whenever `box->lock` is free the box's
   * file is the accepted messages in order, each with one NUL, and `box_size` is its length.
   * Under the lock at most the holder's own bytes follow.
   */
  lemma FileIsAcceptedMessages(c: State, s0: Sys, actions: seq<Action>, s: Sys)
    requires StartsOn(c, s0) && IsRun(s0, actions, s)
    ensures ObeysAll(c.p, Abs(c), s.log)
    ensures var files := FilesOf(Run(c, s.log).0);
      && s.box in files && EncodeAll(s.accepted) <= files[s.box]
      && (s.lock == Nobody ==> files[s.box] == EncodeAll(s.accepted) && s.boxSize == |files[s.box]|)
      && Split(EncodeAll(s.accepted)) == s.accepted
  {
    hide FilesOf, IsRun, StartsOn, SubsOk, Run, EncodeAll;
    RunIsSafe(c, s0, actions, s);
    FileIsOnTheArray(c, s0, actions, s);
    SplitEncodeAll(s.accepted);
  }

  /**
   * Every subscriber has received a prefix of the file, nothing skipped or repeated; the
   * offset arithmetic never wraps; the live end-of-file branch is never taken; and what replay
   * sent is a prefix of the accepted messages.
   */
  lemma SubscribersReceivePrefixes(c: State, s0: Sys, actions: seq<Action>, s: Sys, i: nat)
    requires StartsOn(c, s0) && IsRun(s0, actions, s) && i < |s.subs|
    ensures s.box in s.fs.files
    ensures var u := s.subs[i];
      && u.received <= BoxFile(s) && u.pc != Ended(true)
      && (HasFd(u) ==> u.fd in s.fs.handles && s.fs.handles[u.fd] == Handle(s.box, |u.received|))
      && (!u.pc.ReplayGot? && !u.pc.LiveGot? && !u.pc.Crashed? && !u.pc.Ended? ==> u.offset == |u.received|)
      && (u.pc.Testing? || u.pc.Replaying? ==> u.offset <= s.boxSize && Unread(s, u) == s.boxSize - u.offset)
      && (u.pc.LiveRead? ==> u.offset < |BoxFile(s)|)
      && u.replayed <= s.accepted
  {
    hide ObeysAll, AbsRun, Fits, EncodeAll, IsRun, StartsOn, PubsOk, HandlesApart, HandlesSpent;
    RunIsSafe(c, s0, actions, s);
    var u := s.subs[i];
    assert SubOk(u, s.box, BoxFile(s), s.fs.handles, s.accepted, s.boxSize, WakePending(s));
    if HoldsAsSub(u) {
      UnderLock(s, s0.fs, i);
      UnreadDoesNotWrap(s, u);
    }
  }

  /** The message a publisher has written whole but not yet counted: a live reader may be ahead by it. */
  function Uncounted(s: Sys): seq<seq<byte>> {
    if s.lock.ByPub? && s.lock.i < |s.pubs| && s.pubs[s.lock.i].Wrote? then [s.pubs[s.lock.i].m] else []
  }

  /** The file is the accepted messages, the uncounted one if any, and no other complete string. */
  lemma FileIsMessagesAndTail(s: Sys, fs0: Fs) returns (tail: seq<byte>)
    requires Safe(s, fs0)
    ensures NulFree(tail) && BoxFile(s) == EncodeAll(s.accepted + Uncounted(s)) + tail
    ensures forall k :: 0 <= k < |s.accepted + Uncounted(s)| ==> NulFree((s.accepted + Uncounted(s))[k])
  {
    hide ObeysAll, AbsRun, Fits, EncodeAll, SubsOk, HandlesApart, HandlesSpent;
    tail := [];
    if s.lock.ByPub? {
      assert PubOk(s.pubs[s.lock.i], s.box, BoxFile(s), s.fs.handles);
    }
    if Uncounted(s) == [] {
      assert s.accepted + [] == s.accepted;
      tail := PendingTail(s);
    } else {
      var m := s.pubs[s.lock.i].m;
      EncodeAllSnoc(s.accepted, m);
      assert EncodeAll(s.accepted + [m]) + [] == EncodeAll(s.accepted + [m]);
    }
  }

  /**
   * In messages: the complete strings a subscriber has received are the first of the accepted
   * messages in order, or of those and the one message just written and not yet counted; and
   * the bytes are those of the file on the flat array.
   */
  lemma SubscribersReceiveMessages(c: State, s0: Sys, actions: seq<Action>, s: Sys, i: nat)
    requires StartsOn(c, s0) && IsRun(s0, actions, s) && i < |s.subs|
    ensures ObeysAll(c.p, Abs(c), s.log)
    ensures var files := FilesOf(Run(c, s.log).0);
      && s.box in files && s.subs[i].received <= files[s.box]
      && Complete(s.subs[i].received) <= s.accepted + Uncounted(s)
      && (s.lock == Nobody ==> Complete(s.subs[i].received) <= s.accepted)
  {
    hide FilesOf, IsRun, StartsOn, Run, EncodeAll, Safe, Complete;
    RunIsSafe(c, s0, actions, s);
    FileIsOnTheArray(c, s0, actions, s);
    SubscribersReceivePrefixes(c, s0, actions, s, i);
    var tail := FileIsMessagesAndTail(s, s0.fs);
    CompletePrefix(s.accepted + Uncounted(s), tail, s.subs[i].received);
    assert s.accepted + [] == s.accepted;
  }

  /** No lost wakeup: with the lock free, whoever still sleeps has nothing to read. */
  lemma SleepersAreUpToDate(c: State, s0: Sys, actions: seq<Action>, s: Sys, i: nat)
    requires StartsOn(c, s0) && IsRun(s0, actions, s) && i < |s.subs|
    requires s.lock == Nobody && s.subs[i].pc.Asleep?
    ensures s.subs[i].offset == s.boxSize == |s.subs[i].received|
    ensures s.box in s.fs.files && s.subs[i].received == BoxFile(s)
  {
    hide ObeysAll, AbsRun, Fits, EncodeAll, IsRun, StartsOn, PubsOk, HandlesApart, HandlesSpent, LockOk;
    RunIsSafe(c, s0, actions, s);
    assert SubOk(s.subs[i], s.box, BoxFile(s), s.fs.handles, s.accepted, s.boxSize, WakePending(s));
  }

  /**
   * Handles are never closed: those on the box at the start, one for each subscriber that has
   * opened it and one for each accepted message are all different, and all in the one table.
   */
  lemma HandlesBoundMessages(c: State, s0: Sys, actions: seq<Action>, s: Sys)
    requires StartsOn(c, s0) && IsRun(s0, actions, s)
    ensures |s.accepted| + |Followers(s.subs)| + |BoxHandles(s0)| <= s0.p.handles
  {
    hide EncodeAll, IsRun, SubOk, Fits, ObeysAll, AbsRun, StartsOn, PubsOk, HandlesApart, LockOk;
    RunIsSafe(c, s0, actions, s);
    SameParams(c, s0, actions, s);
    assert BoxHandles(s) <= Range(s.p.handles);
    FillsRange(BoxHandles(s), s.p.handles);
  }

  lemma StepKeepsParams(s: Sys, a: Action)
    requires s.p.Ok() && Enabled(s, a)
    ensures Next(s, a).p == s.p && Next(s, a).box == s.box
  {
    hide AbsStep, IsForeign, Split, WakeAll;
  }

  lemma {:induction false} SameParams(c: State, s0: Sys, actions: seq<Action>, s: Sys)
    requires StartsOn(c, s0) && IsRun(s0, actions, s)
    ensures s.p == s0.p && s.box == s0.box
    decreases |actions|
  {
    hide StartsOn, Next, Enabled;
    if actions != [] {
      var front, last := actions[..|actions| - 1], actions[|actions| - 1];
      var mid :| IsRun(s0, front, mid) && mid.p.Ok() && Enabled(mid, last) && s == Next(mid, last);
      SameParams(c, s0, front, mid);
      StepKeepsParams(mid, last);
    }
  }

  /** Whether a message fits decides, and nothing else: it is written whole or the box is reported full. */
  lemma WrittenWholeOrFull(s: Sys, fs0: Fs, i: nat)
    requires Safe(s, fs0) && PubEnabled(s, i) && s.pubs[i].Opened?
    ensures var s1 := PubNext(s, i); var m := s.pubs[i].m; var blocked := 1 + |NonEmpty(s.fs.files)| >= s.p.blocks;
      && (s1.pubs[i] == Pub.Crashed <==> BoxFile(s) == [] && blocked)
      && (s1.pubs[i] == Wrote(m) <==> |BoxFile(s)| + |m| + 1 <= s.p.blockSize && !(BoxFile(s) == [] && blocked))
      && (s1.pubs[i].Full? <==> |BoxFile(s)| + |m| + 1 > s.p.blockSize && !(BoxFile(s) == [] && blocked))
  {
    hide ObeysAll, AbsRun, Fits, SubOk, EncodeAll, HandlesApart, HandlesSpent, NonEmpty;
    assert PubOk(s.pubs[i], s.box, BoxFile(s), s.fs.handles);
    assert |BoxFile(s)| <= s.p.blockSize;
  }

  /** The bytes of publisher `i` that fit land behind the accepted messages. */
  ghost predicate LandsAtTheEnd(s: Sys, i: nat)
    requires s.p.Ok() && PubEnabled(s, i) && s.pubs[i].Opened?
  {
    var Opened(m, fd) := s.pubs[i];
    var s1 := PubNext(s, i);
    && s.box in s.fs.files && s1.box in s1.fs.files && i < |s1.pubs|
    && fd in s.fs.handles && s.fs.handles[fd] == Handle(s.box, |BoxFile(s)|)
    && BoxFile(s) == EncodeAll(s.accepted)
    && match s1.pubs[i] {
         case Wrote(_) => BoxFile(s1) == EncodeAll(s.accepted) + Encode(m)
         case Full(_, part) => part <= |m| && BoxFile(s1) == EncodeAll(s.accepted) + Encode(m)[..part]
         case _ => BoxFile(s1) == EncodeAll(s.accepted)
       }
  }

  lemma WriteLandsAtTheEnd(s: Sys, fs0: Fs, i: nat)
    requires Safe(s, fs0) && PubEnabled(s, i) && s.pubs[i].Opened?
    ensures LandsAtTheEnd(s, i)
  {
    hide ObeysAll, AbsRun, Fits, SubsOk, EncodeAll, HandlesApart, HandlesSpent, DoCall;
    var Opened(m, fd) := s.pubs[i];
    assert PubOk(s.pubs[i], s.box, BoxFile(s), s.fs.handles);
    assert s.lock == ByPub(i) && EncodeAll(s.accepted) + [] == EncodeAll(s.accepted);
    AppendToBox(s, fs0, fd, Encode(m));
    assert Encode(m)[..|m| + 1] == Encode(m);
  }

  /**
   * Open and write are separate TFS calls, yet in every run the handle a publisher opened still
   * stands at the end of the file when it comes to write, whatever ran in between.
   */
  lemma WritesLandAtTheEnd(c: State, s0: Sys, actions: seq<Action>, s: Sys, i: nat)
    requires StartsOn(c, s0) && IsRun(s0, actions, s) && PubEnabled(s, i) && s.pubs[i].Opened?
    ensures s.p.Ok() && LandsAtTheEnd(s, i)
  {
    hide IsRun, StartsOn, LandsAtTheEnd, ObeysAll, AbsRun, Fits;
    RunIsSafe(c, s0, actions, s);
    WriteLandsAtTheEnd(s, s0.fs, i);
  }
}
