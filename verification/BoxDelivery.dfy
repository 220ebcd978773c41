/** What one subscriber achieves: it replays everything, goes to sleep, and is woken for whatever comes after. */
module BoxDelivery {
  import opened Bytes
  import opened Common
  import opened TfsState
  import opened AbstractFs
  import opened TfsRefinement
  import opened Messages
  import opened BoxProtocol
  import opened BoxSafety
  import opened BoxProgress

  // ---- one subscriber, left alone ----

  /** What the steps of subscriber `j` leave alone. */
  ghost predicate Quiet(s: Sys, t: Sys, j: nat) {
    && t.p == s.p && t.box == s.box && t.halted == s.halted && t.pubs == s.pubs
    && t.accepted == s.accepted && t.boxSize == s.boxSize && t.fs.files == s.fs.files
    && j < |s.subs| == |t.subs| && t.subs == s.subs[j := t.subs[j]]
  }

  lemma SubStepKeepsRest(s: Sys, j: nat)
    requires s.p.Ok() && SubEnabled(s, j)
    ensures SubNext(s, j).p == s.p && SubNext(s, j).halted == s.halted
  {
    hide AbsStep, Split;
  }

  /** Subscriber `j` takes up to `n` steps in a row. */
  ghost function SubRun(s: Sys, j: nat, n: nat): Sys
    requires s.p.Ok()
    decreases n
  {
    if n == 0 || !SubEnabled(s, j) then s
    else
      SubStepKeepsRest(s, j);
      SubRun(SubNext(s, j), j, n - 1)
  }

  lemma {:induction false} SubRunIsRun(s0: Sys, actions: seq<Action>, s: Sys, j: nat, n: nat) returns (all: seq<Action>)
    requires IsRun(s0, actions, s) && s.p.Ok() && !s.halted
    ensures IsRun(s0, all, SubRun(s, j, n))
    decreases n
  {
    hide IsRun, SubNext;
    if n == 0 || !SubEnabled(s, j) {
      return actions;
    }
    RunGrows(s0, actions, s, SubStep(j));
    SubStepKeepsRest(s, j);
    all := SubRunIsRun(s0, actions + [SubStep(j)], SubNext(s, j), j, n - 1);
  }

  /** `m` steps and then `n` more. */
  lemma {:induction false} SubRunAdds(s: Sys, j: nat, m: nat, n: nat)
    requires s.p.Ok()
    ensures SubRun(s, j, m).p.Ok() && SubRun(s, j, m + n) == SubRun(SubRun(s, j, m), j, n)
    decreases m
  {
    hide SubNext;
    if m > 0 && SubEnabled(s, j) {
      SubStepKeepsRest(s, j);
      SubRunAdds(SubNext(s, j), j, m - 1, n);
    } else {
      SubStuck(s, j, n);
    }
  }

  /** A session that cannot go on stays where it is. */
  lemma SubStuck(s: Sys, j: nat, n: nat)
    requires s.p.Ok()
    ensures !SubEnabled(s, j) ==> SubRun(s, j, n) == s
  {
  }

  // ---- single steps ----

  /** Outside the file system a step only moves the session and the lock. */
  lemma StartStep(s: Sys, fs0: Fs, j: nat)
    requires Safe(s, fs0) && SubEnabled(s, j) && (s.subs[j].pc.Start? || s.subs[j].pc.Following? || s.subs[j].pc.Woken?)
    ensures var pc := if s.subs[j].pc.Start? then Opening else Testing;
      SubNext(s, j) == s.(lock := BySub(j), subs := s.subs[j := s.subs[j].(pc := pc)])
  {
  }

  lemma OpeningStep(s: Sys, fs0: Fs, j: nat)
    requires Safe(s, fs0) && SubEnabled(s, j) && s.subs[j].pc.Opening?
    ensures var t := SubNext(s, j); var h := NextHandle(s.p, s.fs); var u := s.subs[j];
      && Quiet(s, t, j) && t.lock == BySub(j)
      && if h == -1 then t.subs[j] == u.(pc := SubPc.Crashed(false))
         else
           && t.subs[j] == u.(pc := Replaying, fd := h)
           && h !in s.fs.handles && t.fs.handles.Keys == s.fs.handles.Keys + {h}
  {
    hide ObeysAll, AbsRun, Fits, SubsOk, EncodeAll, NextHandle, PubsOk, HandlesApart, HandlesSpent;
    assert s.lock == BySub(j);
    assert Path(s)[1..] == s.box;
    NextHandleIsNew(s.p, s.fs);
  }

  /** The tests of the replay loop and of the wait loop. */
  lemma TestStep(s: Sys, fs0: Fs, j: nat)
    requires Safe(s, fs0) && SubEnabled(s, j) && (s.subs[j].pc.Replaying? || s.subs[j].pc.Testing?)
    ensures s.subs[j].offset <= s.boxSize
    ensures var u := s.subs[j]; var more := u.offset < s.boxSize;
      var pc := if u.pc.Replaying? then if more then ReplayRead else Following else if more then LiveRead else Asleep;
      SubNext(s, j) == s.(subs := s.subs[j := u.(pc := pc)], lock := if pc.ReplayRead? then s.lock else Nobody)
  {
    hide Safe;
    SubTests(s, fs0, j);
  }

  /** The read of the replay loop returns all of the file, which has something in it. */
  lemma ReplayReadStep(s: Sys, fs0: Fs, j: nat)
    requires Safe(s, fs0) && SubEnabled(s, j) && s.subs[j].pc.ReplayRead?
    ensures s.box in s.fs.files && s.subs[j].offset == 0 && s.subs[j].replayed == []
    ensures var t := SubNext(s, j); var u := s.subs[j];
      && Quiet(s, t, j) && t.lock == s.lock == BySub(j) && t.fs.handles.Keys == s.fs.handles.Keys
      && t.subs[j].pc == ReplayGot(BoxFile(s)) && t.subs[j].offset == 0 && t.subs[j].replayed == []
  {
    hide ObeysAll, AbsRun, Fits, EncodeAll, DoCall, LockOk, PubsOk, HandlesApart, HandlesSpent;
    UnderLock(s, fs0, j);
    var u := s.subs[j];
    assert SubOk(u, s.box, BoxFile(s), s.fs.handles, s.accepted, s.boxSize, WakePending(s));
    ReadBox(s, fs0, u.fd, s.p.blockSize);
    var (s1, r) := DoCall(s, ReadCall(u.fd, s.p.blockSize));
    assert r.bytes == BoxFile(s) && r.value > 0;
  }

  /** A live read returns the next bytes, at most a record's worth. */
  lemma LiveReadStep(s: Sys, fs0: Fs, j: nat)
    requires Safe(s, fs0) && SubEnabled(s, j) && s.subs[j].pc.LiveRead?
    ensures s.box in s.fs.files && s.subs[j].offset < |BoxFile(s)|
    ensures var t := SubNext(s, j); var u := s.subs[j]; var left := |BoxFile(s)| - u.offset;
      && Quiet(s, t, j) && t.lock == s.lock && t.fs.handles.Keys == s.fs.handles.Keys
      && t.subs[j].pc.LiveGot? && t.subs[j].offset == u.offset && t.subs[j].replayed == u.replayed
      && |t.subs[j].pc.bytes| == if left < MESSAGE_LENGTH then left else MESSAGE_LENGTH
  {
    hide ObeysAll, AbsRun, Fits, EncodeAll, DoCall, LockOk, FileOk, PubsOk, HandlesApart, HandlesSpent;
    var u := s.subs[j];
    assert SubOk(u, s.box, BoxFile(s), s.fs.handles, s.accepted, s.boxSize, WakePending(s));
    ReadBox(s, fs0, u.fd, MESSAGE_LENGTH);
  }

  lemma GotStep(s: Sys, j: nat)
    requires s.p.Ok() && SubEnabled(s, j) && (s.subs[j].pc.ReplayGot? || s.subs[j].pc.LiveGot?)
    ensures var u := s.subs[j]; var t := SubNext(s, j);
      && t == s.(subs := t.subs) && Quiet(s, t, j)
      && t.subs[j].pc == (if u.pc.ReplayGot? then Replaying else Following)
      && t.subs[j].offset == u.offset + |u.pc.bytes|
      && t.subs[j].replayed == if u.pc.ReplayGot? then u.replayed + Split(u.pc.bytes) else u.replayed
  {
  }

  /** One step and what is left of a run. */
  lemma TakeStep(s: Sys, fs0: Fs, j: nat, n: nat)
    requires Safe(s, fs0) && SubEnabled(s, j) && n > 0
    ensures s.p.Ok() && Safe(SubNext(s, j), fs0) && SubNext(s, j).p.Ok()
    ensures SubRun(s, j, n) == SubRun(SubNext(s, j), j, n - 1)
  {
    hide Safe, SubNext;
    SafeBasics(s, fs0);
    SubStepKeeps(s, fs0, j);
    SafeBasics(SubNext(s, j), fs0);
  }

  // ---- falling asleep ----

  /** The session sleeps with everything read, and nobody holds the lock. */
  ghost predicate SleepsUpToDate(s: Sys, t: Sys, j: nat) {
    && Quiet(s, t, j) && t.lock == Nobody && t.subs[j].pc.Asleep?
    && t.box in t.fs.files && t.subs[j].received == BoxFile(t) == EncodeAll(t.accepted)
  }

  /** With nothing left to read, two steps from the top of the live loop into the wait. */
  lemma FallsAsleep(s: Sys, fs0: Fs, j: nat)
    requires Safe(s, fs0) && SubEnabled(s, j) && (s.subs[j].pc.Following? || s.subs[j].pc.Woken?)
    requires s.subs[j].offset == s.boxSize
    ensures s.p.Ok()
    ensures var t := SubRun(s, j, 2);
      && Safe(t, fs0) && SleepsUpToDate(s, t, j) && t.subs[j].replayed == s.subs[j].replayed
      && t.fs.handles.Keys == s.fs.handles.Keys
  {
    hide Safe, SubNext, SubRun;
    TakeStep(s, fs0, j, 2);
    StartStep(s, fs0, j);
    var s1 := SubNext(s, j);
    TakeStep(s1, fs0, j, 1);
    TestStep(s1, fs0, j);
    var t := SubNext(s1, j);
    NoSteps(t, j);
    SleeperHasAll(t, fs0, j);
  }

  lemma NoSteps(s: Sys, j: nat)
    requires s.p.Ok()
    ensures SubRun(s, j, 0) == s
  {
  }

  lemma SleeperHasAll(s: Sys, fs0: Fs, j: nat)
    requires Safe(s, fs0) && j < |s.subs| && s.subs[j].pc.Asleep? && s.lock == Nobody
    ensures s.box in s.fs.files && s.subs[j].received == BoxFile(s) == EncodeAll(s.accepted)
  {
    hide ObeysAll, AbsRun, Fits, EncodeAll, PubsOk, HandlesApart, HandlesSpent, LockOk;
    assert SubOk(s.subs[j], s.box, BoxFile(s), s.fs.handles, s.accepted, s.boxSize, WakePending(s));
    assert EncodeAll(s.accepted) + [] == EncodeAll(s.accepted);
  }

  // ---- replay ----

  /** When a session leaves replay it has sent every message accepted so far, each exactly once. */
  lemma ReplayIsComplete(s: Sys, fs0: Fs, i: nat)
    requires Safe(s, fs0) && SubEnabled(s, i)
    requires s.subs[i].pc.Replaying? || s.subs[i].pc.ReplayRead?
    ensures var s1 := SubNext(s, i);
      s1.subs[i].pc.Following? ==>
        && s1.lock == Nobody && s1.accepted == s.accepted && s1.subs[i].replayed == s.accepted
        && s1.subs[i].received == BoxFile(s) == EncodeAll(s.accepted)
  {
    hide ObeysAll, AbsRun, EncodeAll, PubsOk, HandlesApart, HandlesSpent, DoCall;
    var u := s.subs[i];
    assert SubOk(u, s.box, BoxFile(s), s.fs.handles, s.accepted, s.boxSize, WakePending(s));
    UnderLock(s, fs0, i);
    UnreadDoesNotWrap(s, u);
    if u.pc.ReplayRead? {
      ReadBox(s, fs0, u.fd, s.p.blockSize);
    } else if BoxFile(s) == [] {
      MessagesTakeRoom(s.accepted);
    }
  }

  /** Replay, from its first test to live mode. */
  lemma Replays(s: Sys, fs0: Fs, j: nat) returns (n: nat)
    requires Safe(s, fs0) && SubEnabled(s, j) && s.subs[j].pc.Replaying? && s.subs[j].offset == 0
    ensures s.p.Ok() && n <= 4
    ensures var t := SubRun(s, j, n);
      && Safe(t, fs0) && Quiet(s, t, j) && t.lock == Nobody && t.subs[j].pc.Following?
      && t.subs[j].offset == t.boxSize && t.subs[j].replayed == t.accepted
      && t.fs.handles.Keys == s.fs.handles.Keys
  {
    hide Safe, SubNext, SubRun, EncodeAll, Split;
    SafeBasics(s, fs0);
    TestStep(s, fs0, j);
    var s1 := SubNext(s, j);
    if s1.subs[j].pc.Following? {
      n := 1;
      TakeStep(s, fs0, j, 1);
      NoSteps(s1, j);
      ReplayIsComplete(s, fs0, j);
    } else {
      n := 4;
      TakeStep(s, fs0, j, 4);
      ReplayReadStep(s1, fs0, j);
      TakeStep(s1, fs0, j, 3);
      var s2 := SubNext(s1, j);
      GotStep(s2, j);
      TakeStep(s2, fs0, j, 2);
      var s3 := SubNext(s2, j);
      TestStep(s3, fs0, j);
      TakeStep(s3, fs0, j, 1);
      LockedSize(s2, fs0, j);
      NoSteps(SubNext(s3, j), j);
      ReplayIsComplete(s3, fs0, j);
    }
  }

  lemma LockedSize(s: Sys, fs0: Fs, j: nat)
    requires Safe(s, fs0) && j < |s.subs| && HoldsAsSub(s.subs[j])
    ensures s.box in s.fs.files && s.boxSize == |BoxFile(s)|
  {
    hide Safe;
    SafeBasics(s, fs0);
    UnderLock(s, fs0, j);
  }

  /**
   * A new subscriber left alone with the lock free: without a handle the worker is lost and the
   * lock with it; otherwise, after at most eight steps, it sleeps, has sent every accepted
   * message once and read the whole file, and the lock is free.
   */
  lemma SubscribedIffHandle(s: Sys, fs0: Fs, j: nat)
    requires Safe(s, fs0) && SubEnabled(s, j) && s.subs[j].pc.Start?
    ensures s.p.Ok()
    ensures var t := SubRun(s, j, 8); var h := NextHandle(s.p, s.fs);
      && Safe(t, fs0) && Quiet(s, t, j)
      && if h == -1 then t.subs[j].pc == SubPc.Crashed(false) && t.lock == BySub(j) && LockedForGood(t)
         else
           && SleepsUpToDate(s, t, j) && t.subs[j].replayed == t.accepted
           && h !in s.fs.handles && t.fs.handles.Keys == s.fs.handles.Keys + {h}
  {
    hide Safe, SubNext, SubRun, NextHandle, EncodeAll, LockedForGood;
    TakeStep(s, fs0, j, 8);
    StartStep(s, fs0, j);
    var s1 := SubNext(s, j);
    TakeStep(s1, fs0, j, 7);
    OpeningStep(s1, fs0, j);
    var s2 := SubNext(s1, j);
    if s2.subs[j].pc.Crashed? {
      SubStuck(s2, j, 6);
      GoneIsForGood(s2, fs0);
    } else {
      StartsAtZero(s1, fs0, j);
      var n := Replays(s2, fs0, j);
      var s3 := SubRun(s2, j, n);
      FallsAsleep(s3, fs0, j);
      var t := SubRun(s3, j, 2);
      SubRunAdds(s2, j, n, 6 - n);
      SubRunAdds(s3, j, 2, 4 - n);
      SubStuck(t, j, 4 - n);
    }
  }

  lemma StartsAtZero(s: Sys, fs0: Fs, j: nat)
    requires Safe(s, fs0) && j < |s.subs| && s.subs[j].pc.Opening?
    ensures s.subs[j].offset == 0
  {
    hide ObeysAll, AbsRun, Fits, EncodeAll, PubsOk, HandlesApart, HandlesSpent, LockOk;
    assert SubOk(s.subs[j], s.box, BoxFile(s), s.fs.handles, s.accepted, s.boxSize, WakePending(s));
  }

  /**
   * The client's pipe breaks in the middle of replay: the worker returns with the lock, for
   * good, and what it has sent is the first of the accepted messages.
   */
  lemma BrokenReplayKeepsLock(s: Sys, fs0: Fs, j: nat, sent: nat)
    requires Safe(s, fs0) && Enabled(s, SubFails(j, sent))
    ensures s.p.Ok()
    ensures var t := Next(s, SubFails(j, sent));
      && Quiet(s, t, j) && t.fs == s.fs && t.lock == BySub(j) && t.subs[j].pc == SubPc.Crashed(true)
      && sent <= |s.accepted| && t.subs[j].replayed == s.accepted[..sent]
      && LockedForGood(t)
  {
    hide ObeysAll, AbsRun, Fits, EncodeAll, Split, PubsOk, HandlesApart, HandlesSpent, LockedForGood;
    var u := s.subs[j];
    assert SubOk(u, s.box, BoxFile(s), s.fs.handles, s.accepted, s.boxSize, WakePending(s));
    UnderLock(s, fs0, j);
    SplitEncodeAll(s.accepted);
    SubFailing(s, fs0, j, sent);
    GoneIsForGood(Next(s, SubFails(j, sent)), fs0);
  }

  // ---- live mode ----

  /** The reads it takes to catch up with so many bytes. */
  function Reads(unread: nat): nat {
    if unread == 0 then 0 else 1 + Reads(if unread < MESSAGE_LENGTH then 0 else unread - MESSAGE_LENGTH)
  }

  /** One round of the live loop. */
  lemma LiveRound(s: Sys, fs0: Fs, j: nat)
    requires Safe(s, fs0) && SubEnabled(s, j) && (s.subs[j].pc.Following? || s.subs[j].pc.Woken?)
    requires s.subs[j].offset < s.boxSize
    ensures s.p.Ok()
    ensures var t := SubRun(s, j, 4); var left := s.boxSize - s.subs[j].offset;
      && Safe(t, fs0) && Quiet(s, t, j) && t.lock == Nobody && t.subs[j].pc.Following?
      && t.subs[j].offset == s.subs[j].offset + (if left < MESSAGE_LENGTH then left else MESSAGE_LENGTH)
      && t.subs[j].replayed == s.subs[j].replayed && t.fs.handles.Keys == s.fs.handles.Keys
  {
    hide Safe, SubNext, SubRun, EncodeAll;
    TakeStep(s, fs0, j, 4);
    StartStep(s, fs0, j);
    var s1 := SubNext(s, j);
    TakeStep(s1, fs0, j, 3);
    TestStep(s1, fs0, j);
    LockedSize(s1, fs0, j);
    var s2 := SubNext(s1, j);
    TakeStep(s2, fs0, j, 2);
    LiveReadStep(s2, fs0, j);
    var s3 := SubNext(s2, j);
    TakeStep(s3, fs0, j, 1);
    GotStep(s3, j);
    NoSteps(SubNext(s3, j), j);
  }

  /** From the top of the live loop, `k` unread bytes take one round a read, and then it sleeps. */
  lemma {:induction false} CatchesUp(s: Sys, fs0: Fs, j: nat)
    requires Safe(s, fs0) && SubEnabled(s, j) && (s.subs[j].pc.Following? || s.subs[j].pc.Woken?)
    ensures s.p.Ok() && s.subs[j].offset <= s.boxSize
    ensures var t := SubRun(s, j, 4 * Reads(s.boxSize - s.subs[j].offset) + 2);
      && Safe(t, fs0) && SleepsUpToDate(s, t, j) && t.subs[j].replayed == s.subs[j].replayed
      && t.fs.handles.Keys == s.fs.handles.Keys
    decreases s.boxSize - s.subs[j].offset
  {
    hide Safe, SubNext, SubRun, EncodeAll;
    SafeBasics(s, fs0);
    NeverAhead(s, fs0, j);
    if s.subs[j].offset == s.boxSize {
      FallsAsleep(s, fs0, j);
    } else {
      LiveRound(s, fs0, j);
      var mid := SubRun(s, j, 4);
      CatchesUp(mid, fs0, j);
      SubRunAdds(s, j, 4, 4 * Reads(mid.boxSize - mid.subs[j].offset) + 2);
    }
  }

  lemma NeverAhead(s: Sys, fs0: Fs, j: nat)
    requires Safe(s, fs0) && SubEnabled(s, j) && (s.subs[j].pc.Following? || s.subs[j].pc.Woken?)
    ensures s.subs[j].offset <= s.boxSize
  {
    hide Safe, SubNext;
    StartStep(s, fs0, j);
    SubStepKeeps(s, fs0, j);
    SafeBasics(s, fs0);
    TestStep(SubNext(s, j), fs0, j);
  }

  /** A sleeper that wakes for no reason tests again and goes back to sleep, nothing read and nothing lost. */
  lemma SpuriousWakeup(s: Sys, fs0: Fs, j: nat)
    requires Safe(s, fs0) && Enabled(s, SubSpurious(j)) && s.lock == Nobody
    ensures s.p.Ok() && Next(s, SubSpurious(j)).p.Ok()
    ensures var s1 := Next(s, SubSpurious(j)); var t := SubRun(s1, j, 2);
      && s1.subs[j].pc.Woken? && Safe(t, fs0) && SleepsUpToDate(s, t, j)
      && t.subs[j].replayed == s.subs[j].replayed && t.subs[j].received == s.subs[j].received
  {
    hide Safe, SubRun, EncodeAll;
    SafeBasics(s, fs0);
    SleeperHasAll(s, fs0, j);
    SleeperOffset(s, fs0, j);
    StepKeepsSafe(s, fs0, SubSpurious(j));
    FallsAsleep(Next(s, SubSpurious(j)), fs0, j);
  }

  lemma SleeperOffset(s: Sys, fs0: Fs, j: nat)
    requires Safe(s, fs0) && j < |s.subs| && s.subs[j].pc.Asleep? && s.lock == Nobody
    ensures s.subs[j].offset == s.boxSize
  {
    hide ObeysAll, AbsRun, Fits, EncodeAll, PubsOk, HandlesApart, HandlesSpent, LockOk;
    assert SubOk(s.subs[j], s.box, BoxFile(s), s.fs.handles, s.accepted, s.boxSize, WakePending(s));
  }

  // ---- publisher and subscriber together ----

  /** A subscriber joins and goes to sleep; the publisher is where it was. */
  lemma Joins(s: Sys, fs0: Fs, i: nat, j: nat, opens: nat) returns (actions: seq<Action>, t: Sys)
    requires Safe(s, fs0) && Ready(s, i, opens + 1) && j < |s.subs| && s.subs[j].pc.Start?
    ensures IsRun(s, actions, t) && Safe(t, fs0) && Ready(t, i, opens)
    ensures SleepsUpToDate(s, t, j) && t.subs[j].replayed == t.accepted
  {
    hide IsRun, Safe, SubRun, NextHandle, NonEmpty, EncodeAll;
    SafeBasics(s, fs0);
    HandleLeft(s, fs0);
    SubscribedIffHandle(s, fs0, j);
    EmptyRun(s);
    actions := SubRunIsRun(s, [], s, j, 8);
    t := SubRun(s, j, 8);
    var h := NextHandle(s.p, s.fs);
    assert |s.fs.handles.Keys + {h}| == |s.fs.handles.Keys| + 1;
    assert |t.fs.handles| == |t.fs.handles.Keys|;
  }

  /** A sleeper that was woken catches up and goes back to sleep. */
  lemma Wakes(s: Sys, fs0: Fs, j: nat) returns (actions: seq<Action>, t: Sys)
    requires Safe(s, fs0) && !s.halted && s.lock == Nobody
    requires j < |s.subs| && (s.subs[j].pc.Asleep? || s.subs[j].pc.Woken?)
    ensures IsRun(s, actions, t) && Safe(t, fs0)
    ensures SleepsUpToDate(s, t, j) && t.subs[j].replayed == s.subs[j].replayed
  {
    hide IsRun, Safe, SubRun, EncodeAll;
    SafeBasics(s, fs0);
    EmptyRun(s);
    if s.subs[j].pc.Asleep? {
      actions, t := [], s;
      SleeperHasAll(s, fs0, j);
    } else {
      CatchesUp(s, fs0, j);
      var n := 4 * Reads(s.boxSize - s.subs[j].offset) + 2;
      actions := SubRunIsRun(s, [], s, j, n);
      t := SubRun(s, j, n);
    }
  }

  /**
   * End to end: what is published before a subscriber joins reaches it in replay, what is
   * published after it went to sleep wakes it and reaches it live; it ends asleep again with
   * every message received, and the lock free.
   */
  lemma Delivered(s: Sys, fs0: Fs, i: nat, j: nat, before: seq<seq<byte>>, after: seq<seq<byte>>)
    returns (actions: seq<Action>, t: Sys)
    requires Safe(s, fs0) && Ready(s, i, |before| + |after| + 1) && j < |s.subs| && s.subs[j].pc.Start?
    requires MessagesOk(before) && MessagesOk(after)
    requires |BoxFile(s)| + |EncodeAll(before)| + |EncodeAll(after)| <= s.p.blockSize
    ensures IsRun(s, actions, t) && t.accepted == s.accepted + before + after
    ensures j < |t.subs| && t.subs[j].pc.Asleep? && t.lock == Nobody
    ensures t.subs[j].replayed == s.accepted + before && t.subs[j].received == EncodeAll(t.accepted)
  {
    hide IsRun, Safe, EncodeAll, NonEmpty, Reads;
    var a1, s1 := PublishAll(s, fs0, i, before);
    StillReady(s, s1, i, before, |after| + 1);
    var a2, s2 := Joins(s1, fs0, i, j, |after|);
    var a3, s3 := PublishAll(s2, fs0, i, after);
    var a4, s4 := Wakes(s3, fs0, j);
    RunsCompose(s, a1, s1, a2, s2);
    RunsCompose(s, a1 + a2, s2, a3, s3);
    RunsCompose(s, a1 + a2 + a3, s3, a4, s4);
    actions, t := a1 + a2 + a3 + a4, s4;
  }
}
