/** Runs exist, what a message needs to get through, and what replay has delivered when it ends. */
module BoxProgress {
  import opened Bytes
  import opened Common
  import opened Directory
  import opened TfsState
  import opened AbstractFs
  import opened TfsView
  import opened TfsRefinement
  import opened Messages
  import opened BoxProtocol
  import opened BoxSafety
  import opened Counting
  import Registry

  // ---- starting ----

  /** Sessions about to start on a box whose file is empty. */
  ghost function Start(p: Params, fs: Fs, box: seq<byte>, pubs: nat, subs: nat): Sys {
    Sys(p, box, fs, 0, Nobody, seq(pubs, _ => Idle), seq(subs, _ => Sub(SubPc.Start, -1, 0, [], [])),
        [], [], [], false)
  }

  /** Tables of any size with room for the root and one file; what the memory holds is arbitrary. */
  ghost predicate Startable(m: State) {
    Shape(m) && m.p.inodes >= 2 && m.p.blocks > 0 && m.p.DirSlots() >= 1
  }

  /** TécnicoFS after `tfs_init` and the `tfs_open` of the create handler. */
  ghost function NewBox(m: State, box: seq<byte>): State
    requires Startable(m)
  {
    InitIsEmpty(m);
    Open(Init(m).0, [SLASH] + box, CREATE).0
  }

  /** From there every protocol theorem applies. */
  lemma NewBoxStarts(m: State, box: seq<byte>, pubs: nat, subs: nat)
    requires Startable(m) && NameOk(box)
    ensures Inv(NewBox(m, box))
    ensures var c := NewBox(m, box); var s0 := Start(m.p, Abs(c), box, pubs, subs);
      && Abs(c).files == map[box := []] && StartsOn(c, s0)
      && |s0.fs.handles| == |BoxHandles(s0)| == if m.p.handles > 0 then 1 else 0
  {
    hide Init, Entries, Block, Dir, Open, FilesOf, HandlesOf, BlocksOk, DirOk, Handles;
    InitIsEmpty(m);
    var s := Init(m).0;
    var call := OpenCall([SLASH] + box, CREATE);
    assert call.name[1..] == box;
    StepKeepsInv(s, call);
    FirstHandle(m.p, Fs(map[box := []], map[]), box);
  }

  /** With no handle in use the first one is granted, if there are any. */
  lemma FirstHandle(p: Params, a: Fs, box: seq<byte>)
    requires p.Ok() && a.handles == map[]
    ensures var handles := Grant(p, a, box, 0).0.handles;
      handles == if p.handles > 0 then map[0 := Handle(box, 0)] else map[]
    ensures HandlesOn(Grant(p, a, box, 0).0, box) == if p.handles > 0 then {0} else {}
  {
    var taken := seq(p.handles, h => h in a.handles);
    assert p.handles > 0 ==> !taken[0];
  }

  // ---- one publisher, left alone ----

  /** What the steps of one publisher leave alone. */
  ghost predicate SameBox(s: Sys, s1: Sys) {
    && s1.p == s.p && s1.box == s.box && s1.halted == s.halted
    && |s1.pubs| == |s.pubs| && |s1.subs| == |s.subs|
  }

  lemma PubStepKeepsRest(s: Sys, i: nat)
    requires s.p.Ok() && PubEnabled(s, i)
    ensures SameBox(s, PubNext(s, i))
  {
  }

  /** Publisher `i` takes up to `n` steps in a row. */
  ghost function PubRun(s: Sys, i: nat, n: nat): Sys
    requires s.p.Ok()
    decreases n
  {
    if n == 0 || !PubEnabled(s, i) then s
    else
      PubStepKeepsRest(s, i);
      PubRun(PubNext(s, i), i, n - 1)
  }

  /** A block to be had, if the box still needs one. */
  ghost predicate BlockLeft(s: Sys)
    requires s.box in s.fs.files
  {
    BoxFile(s) != [] || 1 + |NonEmpty(s.fs.files)| < s.p.blocks
  }

  lemma LockStep(s: Sys, fs0: Fs, i: nat)
    requires Safe(s, fs0) && PubEnabled(s, i) && s.pubs[i].HasMessage?
    ensures PubNext(s, i) == s.(lock := ByPub(i), pubs := s.pubs[i := Locked(s.pubs[i].m)])
  {
  }

  lemma OpenStep(s: Sys, fs0: Fs, i: nat)
    requires Safe(s, fs0) && PubEnabled(s, i) && s.pubs[i].Locked?
    ensures var s1 := PubNext(s, i); var m := s.pubs[i].m; var h := NextHandle(s.p, s.fs);
      && SameBox(s, s1) && s1.accepted == s.accepted && s1.lock == ByPub(i) && s1.fs.files == s.fs.files
      && s1.subs == s.subs
      && (if h == -1 then s1.pubs[i] == Pub.Crashed
          else s1.pubs[i] == Opened(m, h) && h !in s.fs.handles && s1.fs.handles.Keys == s.fs.handles.Keys + {h})
  {
    hide ObeysAll, AbsRun, Fits, SubsOk, EncodeAll, NextHandle, PubsOk, HandlesApart, HandlesSpent;
    assert s.lock == ByPub(i);
    assert Path(s)[1..] == s.box;
    NextHandleIsNew(s.p, s.fs);
  }

  lemma WriteStep(s: Sys, fs0: Fs, i: nat)
    requires Safe(s, fs0) && PubEnabled(s, i) && s.pubs[i].Opened?
    ensures var s1 := PubNext(s, i); var m := s.pubs[i].m; var room := s.p.blockSize - |BoxFile(s)|;
      && SameBox(s, s1) && s1.accepted == s.accepted && s1.lock == ByPub(i)
      && s1.fs.handles.Keys == s.fs.handles.Keys && s1.box in s1.fs.files && room >= 0 && s1.subs == s.subs
      && (if !BlockLeft(s) then s1.pubs[i] == Pub.Crashed
          else if |m| + 1 > room then
            s1.pubs[i] == Full(m, room) && BoxFile(s1) == BoxFile(s) + Encode(m)[..room]
          else s1.pubs[i] == Wrote(m) && BoxFile(s1) == BoxFile(s) + Encode(m))
  {
    hide ObeysAll, AbsRun, Fits, SubsOk, EncodeAll, HandlesApart, HandlesSpent, NonEmpty;
    var Opened(m, fd) := s.pubs[i];
    assert s.lock == ByPub(i);
    assert PubOk(s.pubs[i], s.box, BoxFile(s), s.fs.handles);
    assert |BoxFile(s)| <= s.p.blockSize;
    AppendSplice(BoxFile(s), Encode(m), s.p.blockSize - |BoxFile(s)|);
  }

  /** Size update, broadcast and unlock. */
  lemma FinishSteps(s: Sys, i: nat)
    requires s.p.Ok() && PubEnabled(s, i) && s.pubs[i].Wrote?
    ensures var t := PubRun(s, i, 3);
      && SameBox(s, t) && t.accepted == s.accepted + [s.pubs[i].m] && t.lock == Nobody
      && t.fs == s.fs && t.pubs[i] == Idle && t.subs == WakeAll(s.subs)
  {
    var s1 := PubNext(s, i);
    var s2 := PubNext(s1, i);
    var s3 := PubNext(s2, i);
    assert PubRun(s3, i, 0) == s3;
    assert PubRun(s2, i, 1) == s3;
    assert PubRun(s1, i, 2) == s3;
  }

  /** A publisher that cannot go on stays where it is. */
  lemma Stuck(s: Sys, i: nat, n: nat)
    requires s.p.Ok() && !PubEnabled(s, i)
    ensures PubRun(s, i, n) == s
  {
  }

  lemma SafeBasics(s: Sys, fs0: Fs)
    requires Safe(s, fs0)
    ensures s.p.Ok() && s.box in s.fs.files && |BoxFile(s)| <= s.p.blockSize
  {
    hide ObeysAll, AbsRun, Fits;
  }

  /**
   * With the lock free and nobody interfering, a publisher's six steps have one of three ends.
   * Without a handle, or a block for an empty box, the worker is lost and the lock with it. If
   * the message does not fit, what fits is written, the box is reported full, and the lock is
   * lost too. Otherwise the message is appended, every sleeper woken and the lock free again.
   */
  lemma PublishedIffRoom(s: Sys, fs0: Fs, i: nat)
    requires Safe(s, fs0) && PubEnabled(s, i) && s.pubs[i].HasMessage?
    ensures var t := PubRun(s, i, 6); var m := s.pubs[i].m; var h := NextHandle(s.p, s.fs);
      && SameBox(s, t) && t.box in t.fs.files
      && if h == -1 || !BlockLeft(s) then
           t.pubs[i] == Pub.Crashed && t.lock == ByPub(i) && t.accepted == s.accepted && t.subs == s.subs
         else
           && t.fs.handles.Keys == s.fs.handles.Keys + {h} && h !in s.fs.handles
           && var room := s.p.blockSize - |BoxFile(s)|;
           if |m| + 1 > room then
             && t.pubs[i] == Full(m, room) && t.lock == ByPub(i) && t.accepted == s.accepted
             && room >= 0 && BoxFile(t) == BoxFile(s) + Encode(m)[..room] && t.subs == s.subs
           else
             && t.pubs[i] == Idle && t.lock == Nobody && t.accepted == s.accepted + [m]
             && BoxFile(t) == BoxFile(s) + Encode(m) && t.subs == WakeAll(s.subs)
  {
    hide Safe, PubNext, NextHandle, NonEmpty;
    SafeBasics(s, fs0);
    LockStep(s, fs0, i);
    var s1 := PubNext(s, i);
    PubStepKeeps(s, fs0, i);
    SafeBasics(s1, fs0);
    OpenStep(s1, fs0, i);
    PubStepKeeps(s1, fs0, i);
    var s2 := PubNext(s1, i);
    SafeBasics(s2, fs0);
    assert PubRun(s, i, 6) == PubRun(s1, i, 5) == PubRun(s2, i, 4);
    if s2.pubs[i] == Pub.Crashed {
      Stuck(s2, i, 4);
    } else {
      WriteStep(s2, fs0, i);
      var s3 := PubNext(s2, i);
      assert PubRun(s2, i, 4) == PubRun(s3, i, 3);
      if !s3.pubs[i].Wrote? {
        Stuck(s3, i, 3);
      } else {
        FinishSteps(s3, i);
      }
    }
  }

  // ---- locks that are lost ----

  /** The holder of the lock cannot take another step. */
  predicate HolderGone(s: Sys) {
    match s.lock
    case Nobody => false
    case ByPub(i) => i < |s.pubs| && (s.pubs[i].Full? || s.pubs[i] == Pub.Crashed)
    case BySub(i) => i < |s.subs| && s.subs[i].pc.Crashed?
  }

  predicate SameHolder(s: Sys, t: Sys) {
    && t.lock == s.lock
    && match s.lock
       case Nobody => true
       case ByPub(i) => i < |s.pubs| && i < |t.pubs| && t.pubs[i] == s.pubs[i]
       case BySub(i) => i < |s.subs| && i < |t.subs| && t.subs[i] == s.subs[i]
  }

  lemma GonePubsWait(s: Sys, fs0: Fs, i: nat)
    requires Safe(s, fs0) && HolderGone(s)
    ensures !PubEnabled(s, i)
  {
    hide ObeysAll, AbsRun, Fits, SubsOk, FileOk, FsOk, PubsOk, HandlesApart, HandlesSpent;
  }

  lemma GoneSubsRead(s: Sys, fs0: Fs, i: nat)
    requires Safe(s, fs0) && HolderGone(s) && SubEnabled(s, i)
    ensures s.p.Ok() && SameHolder(s, SubNext(s, i)) && SubNext(s, i).accepted == s.accepted
  {
    hide ObeysAll, AbsRun, Fits, SubsOk, FileOk, PubsOk, HandlesApart, HandlesSpent, AbsStep;
    assert s.subs[i].pc.LiveRead? || s.subs[i].pc.LiveGot?;
  }

  /** No step of anyone frees such a lock or has a message accepted. */
  lemma GoneStaysGone(s: Sys, fs0: Fs, a: Action)
    requires Safe(s, fs0) && Enabled(s, a) && HolderGone(s)
    ensures s.p.Ok() && SameHolder(s, Next(s, a)) && Next(s, a).accepted == s.accepted
  {
    hide Safe, PubNext, SubNext, PubEnabled, SubEnabled, IsForeign, DoCall;
    SafeBasics(s, fs0);
    match a
    case PubStep(i) => GonePubsWait(s, fs0, i);
    case SubStep(i) => GoneSubsRead(s, fs0, i);
    case _ =>
  }

  /** Nor does any run. */
  lemma {:induction false} GoneForever(s: Sys, fs0: Fs, actions: seq<Action>, t: Sys)
    requires Safe(s, fs0) && HolderGone(s) && IsRun(s, actions, t)
    ensures Safe(t, fs0) && HolderGone(t) && SameHolder(s, t) && t.accepted == s.accepted
    decreases |actions|
  {
    hide Safe, Next, Enabled;
    if actions != [] {
      var front, last := actions[..|actions| - 1], actions[|actions| - 1];
      var mid :| IsRun(s, front, mid) && mid.p.Ok() && Enabled(mid, last) && t == Next(mid, last);
      GoneForever(s, fs0, front, mid);
      StepKeepsSafe(mid, fs0, last);
      GoneStaysGone(mid, fs0, last);
    }
  }

  /** Whatever happens next, the holder keeps the lock and no message is accepted. */
  ghost predicate LockedForGood(s: Sys) {
    forall more: seq<Action>, t: Sys :: IsRun(s, more, t) ==> t.accepted == s.accepted && t.lock == s.lock != Nobody
  }

  lemma GoneIsForGood(s: Sys, fs0: Fs)
    requires Safe(s, fs0) && HolderGone(s)
    ensures LockedForGood(s)
  {
    hide IsRun, Safe;
    forall more: seq<Action>, t: Sys | IsRun(s, more, t)
      ensures t.accepted == s.accepted && t.lock == s.lock != Nobody
    {
      GoneForever(s, fs0, more, t);
    }
  }

  /** Once a box was reported full, no run of any sessions ever frees its lock or accepts a message. */
  lemma FullForever(s: Sys, fs0: Fs, i: nat)
    requires Safe(s, fs0) && i < |s.pubs| && s.pubs[i].Full?
    ensures s.lock == ByPub(i) && LockedForGood(s)
  {
    hide Safe, LockedForGood;
    FullHoldsLock(s, fs0, i);
    GoneIsForGood(s, fs0);
  }

  lemma FullHoldsLock(s: Sys, fs0: Fs, i: nat)
    requires Safe(s, fs0) && i < |s.pubs| && s.pubs[i].Full?
    ensures s.lock == ByPub(i)
  {
  }

  // ---- whole runs of one publisher ----

  lemma RunGrows(s0: Sys, actions: seq<Action>, s: Sys, a: Action)
    requires IsRun(s0, actions, s) && s.p.Ok() && Enabled(s, a)
    ensures IsRun(s0, actions + [a], Next(s, a))
  {
    hide Next, Enabled;
    assert (actions + [a])[..|actions|] == actions;
  }

  lemma {:induction false} PubRunIsRun(s0: Sys, actions: seq<Action>, s: Sys, i: nat, n: nat) returns (all: seq<Action>)
    requires IsRun(s0, actions, s) && s.p.Ok() && !s.halted
    ensures IsRun(s0, all, PubRun(s, i, n))
    decreases n
  {
    hide IsRun, PubNext;
    if n == 0 || !PubEnabled(s, i) {
      return actions;
    }
    RunGrows(s0, actions, s, PubStep(i));
    PubStepKeepsRest(s, i);
    all := PubRunIsRun(s0, actions + [PubStep(i)], PubNext(s, i), i, n - 1);
  }

  lemma HandleLeft(s: Sys, fs0: Fs)
    requires Safe(s, fs0) && |s.fs.handles| < s.p.handles
    ensures NextHandle(s.p, s.fs) != -1
  {
    hide ObeysAll, AbsRun, Fits, FileOk, PubsOk, SubsOk, LockOk, HandlesApart, HandlesSpent;
    var taken := s.fs.handles.Keys;
    assert taken <= Range(s.p.handles);
    FillsRange(taken, s.p.handles);
    var h :| h in Range(s.p.handles) && h !in taken;
    assert !seq(s.p.handles, g => g in s.fs.handles)[h];
  }

  lemma LastStep(s: Sys, actions: seq<Action>, t: Sys) returns (before: Sys)
    requires actions != [] && IsRun(s, actions, t)
    ensures IsRun(s, actions[..|actions| - 1], before) && before.p.Ok()
    ensures Enabled(before, actions[|actions| - 1]) && t == Next(before, actions[|actions| - 1])
  {
    hide Next, Enabled;
    before :|
      && IsRun(s, actions[..|actions| - 1], before)
      && before.p.Ok() && Enabled(before, actions[|actions| - 1]) && t == Next(before, actions[|actions| - 1]);
  }

  lemma NoStep(s: Sys, t: Sys)
    requires IsRun(s, [], t)
    ensures t == s
  {
  }

  lemma {:induction false} RunsCompose(s: Sys, first: seq<Action>, mid: Sys, second: seq<Action>, t: Sys)
    requires IsRun(s, first, mid) && IsRun(mid, second, t)
    ensures IsRun(s, first + second, t)
    decreases |second|
  {
    hide Next, Enabled, IsRun;
    if second == [] {
      NoStep(mid, t);
      assert first + second == first;
    } else {
      var front, last := second[..|second| - 1], second[|second| - 1];
      var before := LastStep(mid, second, t);
      RunsCompose(s, first, mid, front, before);
      RunGrows(s, first + front, before, last);
      assert first + second == (first + front) + [last];
    }
  }

  lemma EmptyRun(s: Sys)
    ensures IsRun(s, [], s)
  {
  }

  /** Publisher `i` is at its pipe, nobody holds the lock, and the tables have room for so many opens. */
  ghost predicate Ready(s: Sys, i: nat, opens: nat) {
    && !s.halted && s.lock == Nobody && i < |s.pubs| && s.pubs[i] == Idle
    && s.box in s.fs.files && BlockLeft(s) && |s.fs.handles| + opens <= s.p.handles
  }

  /** `t` is `s` after exactly these messages of publisher `i`. */
  ghost predicate Published(s: Sys, t: Sys, i: nat, ms: seq<seq<byte>>) {
    && SameBox(s, t) && t.accepted == s.accepted + ms && t.lock == Nobody
    && i < |t.pubs| && t.pubs[i] == Idle && |t.fs.handles| == |s.fs.handles| + |ms|
    && t.subs == (if ms == [] then s.subs else WakeAll(s.subs))
    && s.box in s.fs.files && t.box in t.fs.files && BoxFile(t) == BoxFile(s) + EncodeAll(ms)
    && (ms == [] ==> t.fs == s.fs)
  }

  lemma NothingPublished(s: Sys, i: nat)
    requires Ready(s, i, 0)
    ensures Published(s, s, i, [])
  {
    assert s.accepted + [] == s.accepted && BoxFile(s) + [] == BoxFile(s);
  }

  lemma OnePublished(s: Sys, mid: Sys, t: Sys, i: nat, ms: seq<seq<byte>>, m: seq<byte>)
    requires Published(s, mid, i, ms) && Published(mid, t, i, [m])
    ensures Published(s, t, i, ms + [m])
  {
    hide EncodeAll;
    EncodeAllSnoc(ms, m);
    EncodeOne(m);
    Associative(BoxFile(s), EncodeAll(ms), Encode(m));
    assert s.accepted + (ms + [m]) == (s.accepted + ms) + [m];
    assert WakeAll(WakeAll(s.subs)) == WakeAll(s.subs);
  }

  lemma EncodeOne(m: seq<byte>)
    ensures EncodeAll([m]) == Encode(m)
  {
    assert [m][..0] == [];
    assert EncodeAll([]) + Encode(m) == Encode(m);
  }

  lemma StillReady(s: Sys, t: Sys, i: nat, ms: seq<seq<byte>>, opens: nat)
    requires Ready(s, i, |ms| + opens) && Published(s, t, i, ms)
    ensures Ready(t, i, opens)
  {
    hide EncodeAll, NonEmpty;
    MessagesTakeRoom(ms);
  }

  /** The next message is appended, or the box is reported full. */
  lemma PublishOne(s: Sys, fs0: Fs, i: nat, m: seq<byte>) returns (actions: seq<Action>, t: Sys)
    requires Safe(s, fs0) && Ready(s, i, 1) && MessageOk(m)
    ensures IsRun(s, actions, t) && Safe(t, fs0)
    ensures if |BoxFile(s)| + |m| + 1 <= s.p.blockSize then Published(s, t, i, [m])
      else i < |t.pubs| && t.pubs[i].Full? && t.accepted == s.accepted
  {
    hide IsRun, Safe, PubRun, NextHandle, NonEmpty, EncodeAll;
    SafeBasics(s, fs0);
    HandleLeft(s, fs0);
    var s1 := SetPub(s, i, HasMessage(m));
    EmptyRun(s);
    RunGrows(s, [], s, PubReceive(i, m));
    StepKeepsSafe(s, fs0, PubReceive(i, m));
    actions := PubRunIsRun(s, [] + [PubReceive(i, m)], s1, i, 6);
    t := PubRun(s1, i, 6);
    PublishedIffRoom(s1, fs0, i);
    var h := NextHandle(s1.p, s1.fs);
    assert |s1.fs.handles.Keys + {h}| == |s1.fs.handles.Keys| + 1;
    assert |t.fs.handles| == |t.fs.handles.Keys|;
    EncodeOne(m);
    RunKeepsSafe(s, fs0, actions, t);
  }

  /** Any list of messages that fits the box gets through, one after the other. */
  lemma {:induction false} PublishAll(s: Sys, fs0: Fs, i: nat, ms: seq<seq<byte>>)
    returns (actions: seq<Action>, t: Sys)
    requires Safe(s, fs0) && Ready(s, i, |ms|) && MessagesOk(ms)
    requires |BoxFile(s)| + |EncodeAll(ms)| <= s.p.blockSize
    ensures IsRun(s, actions, t) && Safe(t, fs0) && Published(s, t, i, ms)
    decreases |ms|
  {
    hide IsRun, Safe, EncodeAll, NonEmpty;
    if ms == [] {
      actions, t := [], s;
      EmptyRun(s);
      NothingPublished(s, i);
    } else {
      var front, m := ms[..|ms| - 1], ms[|ms| - 1];
      assert ms == front + [m];
      EncodeAllSnoc(front, m);
      var before, mid := PublishAll(s, fs0, i, front);
      StillReady(s, mid, i, front, 1);
      var after;
      after, t := PublishOne(mid, fs0, i, m);
      RunsCompose(s, before, mid, after, t);
      OnePublished(s, mid, t, i, front, m);
      actions := before + after;
    }
  }

  /** ...and the first message that does not fit ends it for good. */
  lemma BoxFillsUp(s: Sys, fs0: Fs, i: nat, ms: seq<seq<byte>>, m: seq<byte>)
    returns (actions: seq<Action>, t: Sys)
    requires Safe(s, fs0) && Ready(s, i, |ms| + 1) && MessagesOk(ms) && MessageOk(m)
    requires |BoxFile(s)| + |EncodeAll(ms)| <= s.p.blockSize < |BoxFile(s)| + |EncodeAll(ms)| + |m| + 1
    ensures IsRun(s, actions, t) && t.accepted == s.accepted + ms
    ensures i < |t.pubs| && t.pubs[i].Full? && t.lock == ByPub(i) && LockedForGood(t)
  {
    hide IsRun, Safe, EncodeAll, NonEmpty, LockedForGood;
    var before, mid := PublishAll(s, fs0, i, ms);
    StillReady(s, mid, i, ms, 1);
    var after;
    after, t := PublishOne(mid, fs0, i, m);
    RunsCompose(s, before, mid, after, t);
    actions := before + after;
    FullForever(t, fs0, i);
  }

  lemma {:induction false} EncodedSize(ms: seq<seq<byte>>, size: nat)
    requires forall k :: 0 <= k < |ms| ==> |ms[k]| == size
    ensures |EncodeAll(ms)| == |ms| * (size + 1)
  {
    if ms != [] {
      EncodedSize(ms[..|ms| - 1], size);
    }
  }

  /**
   * With the broker's parameters sixteen messages of full length fill a new box; the next one,
   * even an empty one, locks it for good.
   */
  lemma BrokerBoxFillsUp(m: State, box: seq<byte>, pubs: nat, subs: nat, next: seq<byte>)
    returns (s0: Sys, actions: seq<Action>, s: Sys)
    requires Shape(m) && m.p == Registry.BROKER && NameOk(box) && pubs > 0 && MessageOk(next)
    ensures s0 == Start(m.p, s0.fs, box, pubs, subs) && StartsOn(NewBox(m, box), s0)
    ensures IsRun(s0, actions, s) && |s.accepted| == 16 && s.lock == ByPub(0) && LockedForGood(s)
  {
    hide IsRun, EncodeAll, Safe, StartsOn, NonEmpty, NewBox, LockedForGood, Abs, MessagesOk;
    NewBoxStarts(m, box, pubs, subs);
    var c := NewBox(m, box);
    s0 := Start(m.p, Abs(c), box, pubs, subs);
    var ms := SixteenLongOnes();
    NothingStored(box);
    InitialIsSafe(c, s0);
    SafeBasics(s0, s0.fs);
    actions, s := BoxFillsUp(s0, s0.fs, 0, ms, next);
  }

  lemma SixteenLongOnes() returns (ms: seq<seq<byte>>)
    ensures |ms| == 16 && MessagesOk(ms) && |EncodeAll(ms)| == BOX_SIZE
  {
    hide EncodeAll;
    var long: seq<byte> := seq(MESSAGE_LENGTH, _ => 65);
    ms := seq(16, _ => long);
    EncodedSize(ms, MESSAGE_LENGTH);
  }

  lemma NothingStored(box: seq<byte>)
    ensures NonEmpty(map[box := []]) == {}
  {
  }
}
