/**
 * One box, any number of publisher and subscriber sessions, every interleaving. A step is
 * what a worker thread does between two points where another can run: acquiring `box->lock`,
 * one `tfs_*` call (each holds `g_library_mutex` throughout), or an access to shared fields.
 * The files and handles are those of the simple file system TécnicoFS refines; other boxes'
 * sessions appear as foreign calls on the same file system.
 */
module BoxProtocol {
  import opened Bytes
  import opened Common
  import opened Directory
  import opened TfsState
  import opened AbstractFs
  import opened Messages

  /** Where a publisher session is in `handle_messages_from_publisher`. */
  datatype Pub =
    | Idle                             // reading the client's pipe
    | HasMessage(m: seq<byte>)
    | Locked(m: seq<byte>)             // holds box->lock from here...
    | Opened(m: seq<byte>, fd: int)
    | Wrote(m: seq<byte>)
    | Resized
    | Notified                         // ...to here
    | Full(m: seq<byte>, part: nat)    // "box is full": returned with the lock still held
    | Crashed                          // a fatal error under the lock: the worker never returns
    | Closed

  /** Where a subscriber session is in `handle_messages_until_now`, then `handle_messages_to_subscriber`. */
  datatype SubPc =
    | Start
    | Opening                          // holds box->lock from here...
    | Replaying                        // at the test of the replay loop
    | ReplayRead
    | ReplayGot(bytes: seq<byte>)      // ...to here
    | Following                        // live mode, about to lock
    | Testing                          // holds box->lock, at the wait condition
    | Asleep                           // in pthread_cond_wait
    | Woken                            // has to take box->lock again
    | LiveRead                         // past the wait, lock released
    | LiveGot(bytes: seq<byte>)        // between tfs_read and the update of client->offset
    | Crashed(hasFd: bool)             // a fatal error under the lock: the worker never returns
    | Ended(eof: bool)

  /** `offset` is client->offset; `received` is what tfs_read returned so far; `replayed` the records sent in replay. */
  datatype Sub = Sub(pc: SubPc, fd: int, offset: nat, received: seq<byte>, replayed: seq<seq<byte>>)

  datatype Holder = Nobody | ByPub(i: nat) | BySub(i: nat)

  datatype Sys = Sys(
    p: Params, box: seq<byte>,
    fs: Fs, boxSize: nat, lock: Holder,
    pubs: seq<Pub>, subs: seq<Sub>,
    accepted: seq<seq<byte>>,          // messages whose size update was made, in that order
    authors: seq<nat>,                 // and who published them
    log: seq<Call>,                    // every TFS call so far
    halted: bool)                      // the process has ended

  datatype Action =
    | PubReceive(i: nat, m: seq<byte>)
    | PubStep(i: nat)
    | PubClose(i: nat)
    | SubStep(i: nat)
    | SubSpurious(i: nat)
    | SubLeave(i: nat)
    | SubFails(i: nat, sent: nat)      // the client's pipe breaks after so many replayed records
    | Foreign(c: Call)
    | Exit                             // the process ends

  function Path(s: Sys): seq<byte> { [SLASH] + s.box }

  /** One TFS call: its reply, and the system after it. */
  ghost function DoCall(s: Sys, c: Call): (r: (Sys, Reply))
    requires s.p.Ok()
    ensures r.0 == s.(fs := r.0.fs, log := s.log + [c])
    ensures AbsStep(s.p, s.fs, c) == (r.0.fs, r.1)
  {
    var (fs, reply) := AbsStep(s.p, s.fs, c);
    (s.(fs := fs, log := s.log + [c]), reply)
  }

  function SetPub(s: Sys, i: nat, pub: Pub): Sys
    requires i < |s.pubs|
  {
    s.(pubs := s.pubs[i := pub])
  }

  function SetSub(s: Sys, i: nat, u: Sub): Sys
    requires i < |s.subs|
  {
    s.(subs := s.subs[i := u])
  }

  /** `pthread_cond_broadcast`: every sleeper has to compete for the lock again. */
  function WakeAll(subs: seq<Sub>): (r: seq<Sub>)
    ensures |r| == |subs|
    ensures forall i :: 0 <= i < |subs| ==> r[i] == if subs[i].pc.Asleep? then subs[i].(pc := Woken) else subs[i]
  {
    seq(|subs|, i requires 0 <= i < |subs| => if subs[i].pc.Asleep? then subs[i].(pc := Woken) else subs[i])
  }

  // ---- publisher steps ----

  ghost predicate PubEnabled(s: Sys, i: nat) {
    && i < |s.pubs|
    && match s.pubs[i] {
         case HasMessage(_) => s.lock == Nobody
         case Locked(_) => true
         case Opened(_, _) => true
         case Wrote(_) => true
         case Resized => true
         case Notified => true
         case _ => false
       }
  }

  ghost function PubNext(s: Sys, i: nat): Sys
    requires s.p.Ok() && PubEnabled(s, i)
  {
    match s.pubs[i]
    case HasMessage(m) => SetPub(s.(lock := ByPub(i)), i, Locked(m))
    case Locked(m) =>
      var (s1, r) := DoCall(s, OpenCall(Path(s), APPEND));
      SetPub(s1, i, if r.value < 0 then Pub.Crashed else Opened(m, r.value))
    case Opened(m, fd) =>
      var (s1, r) := DoCall(s, WriteCall(fd, Encode(m)));
      SetPub(s1, i,
             if r.value < 0 then Pub.Crashed else if r.value < |m| + 1 then Full(m, r.value) else Wrote(m))
    case Wrote(m) =>
      SetPub(s.(boxSize := (s.boxSize + |m| + 1) % TWO64,
                    accepted := s.accepted + [m], authors := s.authors + [i]), i, Resized)
    case Resized => SetPub(s.(subs := WakeAll(s.subs)), i, Notified)
    case Notified => SetPub(s.(lock := Nobody), i, Idle)
  }

  // ---- subscriber steps ----

  ghost predicate SubEnabled(s: Sys, i: nat) {
    && i < |s.subs|
    && match s.subs[i].pc {
         case Start => s.lock == Nobody
         case Following => s.lock == Nobody
         case Woken => s.lock == Nobody
         case Asleep => false
         case Crashed(_) => false
         case Ended(_) => false
         case _ => true
       }
  }

  /** `box->box_size - (uint64_t)client->offset` */
  function Unread(s: Sys, u: Sub): nat {
    (s.boxSize - u.offset) % TWO64
  }

  ghost function SubNext(s: Sys, i: nat): Sys
    requires s.p.Ok() && SubEnabled(s, i)
  {
    var u := s.subs[i];
    match u.pc
    case Start => SetSub(s.(lock := BySub(i)), i, u.(pc := Opening))
    case Opening =>
      var (s1, r) := DoCall(s, OpenCall(Path(s), CREATE));
      SetSub(s1, i, if r.value < 0 then u.(pc := SubPc.Crashed(false)) else u.(pc := Replaying, fd := r.value))
    case Replaying =>
      if Unread(s, u) > 0 then SetSub(s, i, u.(pc := ReplayRead))
      else SetSub(s.(lock := Nobody), i, u.(pc := Following))
    case ReplayRead => // the C code asks for BOX_SIZE bytes, which `main` makes the block size
      var (s1, r) := DoCall(s, ReadCall(u.fd, s.p.blockSize));
      if r.value < 0 then SetSub(s1, i, u.(pc := SubPc.Crashed(true)))
      else if r.value == 0 then SetSub(s1.(lock := Nobody), i, u.(pc := Following))
      else SetSub(s1, i, u.(pc := ReplayGot(r.bytes), received := u.received + r.bytes))
    case ReplayGot(bytes) =>
      SetSub(s, i, u.(pc := Replaying, offset := u.offset + |bytes|, replayed := u.replayed + Split(bytes)))
    case Following => SetSub(s.(lock := BySub(i)), i, u.(pc := Testing))
    case Woken => SetSub(s.(lock := BySub(i)), i, u.(pc := Testing))
    case Testing =>
      if Unread(s, u) == 0 then SetSub(s.(lock := Nobody), i, u.(pc := Asleep))
      else SetSub(s.(lock := Nobody), i, u.(pc := LiveRead))
    case LiveRead =>
      var (s1, r) := DoCall(s, ReadCall(u.fd, MESSAGE_LENGTH));
      if r.value < 0 then SetSub(s1, i, u.(pc := Ended(false)))
      else if r.value == 0 then SetSub(s1, i, u.(pc := Ended(true)))
      else SetSub(s1, i, u.(pc := LiveGot(r.bytes), received := u.received + r.bytes))
    case LiveGot(bytes) => SetSub(s, i, u.(pc := Following, offset := u.offset + |bytes|))
  }

  /** Calls of other sessions: they use handles of other boxes and neither truncate nor unlink this one. */
  ghost predicate IsForeign(s: Sys, c: Call) {
    && WellFormed(c) && Obeys(s.fs, c)
    && match c {
         case OpenCall(n, m) => m.trunc && ValidPath(n) ==> n[1..] != s.box
         case UnlinkCall(n) => ValidPath(n) ==> n[1..] != s.box
         case CloseCall(h) => h in s.fs.handles ==> s.fs.handles[h].name != s.box
         case ReadCall(h, _) => h in s.fs.handles ==> s.fs.handles[h].name != s.box
         case WriteCall(h, _) => h in s.fs.handles ==> s.fs.handles[h].name != s.box
       }
  }

  // ---- the whole system ----

  ghost predicate Enabled(s: Sys, a: Action) {
    && !s.halted
    && match a {
         case PubReceive(i, m) => i < |s.pubs| && s.pubs[i].Idle? && MessageOk(m)
         case PubStep(i) => PubEnabled(s, i)
         case PubClose(i) => i < |s.pubs| && s.pubs[i].Idle?
         case SubStep(i) => SubEnabled(s, i)
         case SubSpurious(i) => i < |s.subs| && s.subs[i].pc.Asleep?
         case SubLeave(i) => i < |s.subs| && s.subs[i].pc.LiveGot?
         case SubFails(i, sent) => i < |s.subs| && s.subs[i].pc.ReplayGot? && sent <= |Split(s.subs[i].pc.bytes)|
         case Foreign(c) => IsForeign(s, c)
         case Exit => true
       }
  }

  ghost function Next(s: Sys, a: Action): Sys
    requires s.p.Ok() && Enabled(s, a)
  {
    match a
    case PubReceive(i, m) => SetPub(s, i, HasMessage(m))
    case PubStep(i) => PubNext(s, i)
    case PubClose(i) => SetPub(s, i, Closed)
    case SubStep(i) => SubNext(s, i)
    case SubSpurious(i) => SetSub(s, i, s.subs[i].(pc := Woken))
    case SubLeave(i) => SetSub(s, i, s.subs[i].(pc := Ended(false)))
    case SubFails(i, sent) =>
      var u := s.subs[i];
      SetSub(s, i, u.(pc := SubPc.Crashed(true), replayed := u.replayed + Split(u.pc.bytes)[..sent]))
    case Foreign(c) => DoCall(s, c).0
    case Exit => s.(halted := true)
  }

  /** A fresh box, whose empty file exists; nobody has started yet. */
  ghost predicate Initial(s: Sys) {
    && s.p.Ok() && NameOk(s.box)
    && s.box in s.fs.files && s.fs.files[s.box] == [] && s.boxSize == 0
    && s.lock == Nobody && s.accepted == [] && s.authors == [] && s.log == [] && !s.halted
    && (forall i :: 0 <= i < |s.pubs| ==> s.pubs[i].Idle?)
    && (forall i :: 0 <= i < |s.subs| ==> s.subs[i] == Sub(Start, -1, 0, [], []))
  }

  /** `s` is reached from `s0` by these actions, taken in this order. */
  ghost predicate IsRun(s0: Sys, actions: seq<Action>, s: Sys)
    decreases |actions|
  {
    if actions == [] then s == s0 else
    exists mid: Sys ::
      && IsRun(s0, actions[..|actions| - 1], mid)
      && mid.p.Ok() && Enabled(mid, actions[|actions| - 1])
      && s == Next(mid, actions[|actions| - 1])
  }
}
