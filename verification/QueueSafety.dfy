/** What the bounded queue keeps under every interleaving, and when it is first-in first-out. */
module QueueSafety {
  import opened Bytes
  import opened PcQueue

  // ---- positions in the ring ----

  /** The slot of the k-th element: 0 after k steps of `(at + 1) % capacity`. */
  function Slot(k: nat, capacity: nat): (r: nat)
    requires capacity > 0
    ensures r < capacity
  {
    if k == 0 then 0 else (Slot(k - 1, capacity) + 1) % capacity
  }

  lemma {:induction false} SlotAhead(k: nat, j: nat, capacity: nat)
    requires j < capacity
    ensures Slot(k + j, capacity) == if Slot(k, capacity) + j < capacity then Slot(k, capacity) + j
                                     else Slot(k, capacity) + j - capacity
  {
    if j > 0 {
      SlotAhead(k, j - 1, capacity);
      StepSlot(Slot(k + j - 1, capacity), capacity);
    }
  }

  lemma StepSlot(at: nat, capacity: nat)
    requires at < capacity
    ensures (at + 1) % capacity == if at + 1 < capacity then at + 1 else 0
  {
  }

  /** Elements less than a capacity apart lie in different slots. */
  lemma SlotsDiffer(k: nat, e: nat, capacity: nat)
    requires k < e < k + capacity
    ensures Slot(k, capacity) != Slot(e, capacity)
  {
    SlotAhead(k, e - k, capacity);
  }

  // ---- counting consumers ----

  datatype Stage = Heading | Popped

  /** Woken consumers and those past the wait loop that have not decremented yet; or only the latter after their pop. */
  function Weight(stage: Stage, c: Consumer): nat {
    match stage
    case Heading => if c.CWoken? || c == CLocked(true) || c.CPassed? || c.CPopped? then 1 else 0
    case Popped => if c.CPopped? then 1 else 0
  }

  function Total(stage: Stage, cons: seq<Consumer>): (n: nat)
    ensures n <= |cons|
  {
    if cons == [] then 0 else Weight(stage, cons[0]) + Total(stage, cons[1..])
  }

  lemma {:induction false} TotalUpdated(stage: Stage, cons: seq<Consumer>, i: nat, c: Consumer)
    requires i < |cons|
    ensures Total(stage, cons[i := c]) == Total(stage, cons) - Weight(stage, cons[i]) + Weight(stage, c)
  {
    if i == 0 {
      assert cons[i := c][1..] == cons[1..];
    } else {
      TotalUpdated(stage, cons[1..], i - 1, c);
      assert cons[i := c][1..] == cons[1..][i - 1 := c];
    }
  }

  lemma {:induction false} TotalOfIdle(stage: Stage, cons: seq<Consumer>)
    requires forall i :: 0 <= i < |cons| ==> cons[i].CIdle?
    ensures Total(stage, cons) == 0
  {
    if cons != [] { TotalOfIdle(stage, cons[1..]); }
  }

  // ---- the invariant ----

  function Bit(b: bool): nat { if b then 1 else 0 }

  /** head and tail run ahead of the size by the updates still due. */
  ghost predicate CountsOk(s: Sys)
    requires s.ring.Ok()
  {
    && s.ring.size == s.count % TWO64
    && s.count == (|s.enqueued| - Bit(s.prod.PWritten?)) - (|s.popped| - Total(Popped, s.cons))
    && s.count <= |s.ring.buf|
    && (s.prod.PPassed? || s.prod.PWritten? ==> s.count < |s.ring.buf|)
    && s.ring.tail == Slot(|s.enqueued|, |s.ring.buf|)
    && s.ring.head == Slot(|s.popped|, |s.ring.buf|)
  }

  /** The last `capacity` elements are in their slots. */
  ghost predicate ContentOk(s: Sys)
    requires s.ring.Ok()
  {
    forall k :: 0 <= k < |s.enqueued| && |s.enqueued| <= k + |s.ring.buf| ==>
      s.ring.buf[Slot(k, |s.ring.buf|)] == s.enqueued[k]
  }

  /** A pop that did not come too early returned the element enqueued at its place. */
  ghost predicate PopsOk(s: Sys) {
    forall k :: 0 <= k < |s.popped| && !s.popped[k].early ==>
      k < |s.enqueued| && s.popped[k].value == s.enqueued[k]
  }

  /** At most one consumer holds the popper lock. */
  ghost predicate PopperLockOk(s: Sys) {
    forall i, j :: 0 <= i < j < |s.cons| ==> !(HoldsPopperLock(s.cons[i]) && HoldsPopperLock(s.cons[j]))
  }

  ghost predicate SomeoneSleeps(s: Sys) {
    exists i :: 0 <= i < |s.cons| && s.cons[i].CAsleep?
  }

  ghost predicate SignalToPusherDue(s: Sys) {
    exists i :: 0 <= i < |s.cons| && s.cons[i].CCounted?
  }

  /**
   * Sleepers are covered: every element is on its way to a consumer, or its signal is; and so
   * is every decrement that took the size off the capacity the producer saw.
   */
  ghost predicate WakeupsOk(s: Sys) {
    && (SomeoneSleeps(s) ==> s.count <= Bit(s.prod.PCounted?) + Total(Heading, s.cons))
    && (forall i :: 0 <= i < |s.cons| && s.cons[i].CSawZero? ==> s.count <= Bit(s.prod.PCounted?))
    && ((s.prod.PSawFull? || s.prod.PAsleep?) && s.ring.size != |s.ring.buf| ==> SignalToPusherDue(s))
  }

  /** One consumer only pops what is there. */
  ghost predicate SingleOk(s: Sys) {
    |s.cons| <= 1 ==>
      && |s.popped| <= |s.enqueued|
      && s.count >= 0
      && (|s.cons| == 1 && (s.cons[0].CPassed? || s.cons[0].CPopped?) ==> s.count >= 1)
      && (forall k :: 0 <= k < |s.popped| ==> !s.popped[k].early)
  }

  ghost predicate Safe(s: Sys) {
    && s.ring.Ok() && CountsOk(s) && ContentOk(s) && PopsOk(s) && PopperLockOk(s) && WakeupsOk(s) && SingleOk(s)
  }

  lemma InitialIsSafe(s: Sys, consumers: nat)
    requires Initial(s, consumers)
    ensures Safe(s)
  {
    TotalOfIdle(Popped, s.cons);
    TotalOfIdle(Heading, s.cons);
  }

  /** A step that only changes where consumer `i` is. */
  lemma {:induction false} Totals(s: Sys, i: nat, c: Consumer)
    requires i < |s.cons|
    ensures Total(Popped, s.cons[i := c]) == Total(Popped, s.cons) - Weight(Popped, s.cons[i]) + Weight(Popped, c)
    ensures Total(Heading, s.cons[i := c]) == Total(Heading, s.cons) - Weight(Heading, s.cons[i]) + Weight(Heading, c)
    ensures |s.cons| == 1 ==> Total(Popped, s.cons) == Weight(Popped, s.cons[0])
  {
    TotalUpdated(Popped, s.cons, i, c);
    TotalUpdated(Heading, s.cons, i, c);
  }

  lemma ProducerKeeps(s: Sys)
    requires Safe(s) && Enabled(s, ProdStep) && !s.prod.PPassed?
    ensures Safe(ProdNext(s))
  {
    hide Slot, Total, WakeupsOk;
    ProducerKeepsWakeups(s);
  }

  lemma ProducerKeepsWakeups(s: Sys)
    requires Safe(s) && Enabled(s, ProdStep) && !s.prod.PPassed?
    ensures ProdNext(s).ring.Ok() && WakeupsOk(ProdNext(s))
  {
    hide Slot, Total, ContentOk, PopsOk, SingleOk, PopperLockOk;
  }

  /** The slot about to be filled is free: its last element has been popped. */
  lemma SlotIsFree(s: Sys)
    requires Safe(s) && s.prod.PPassed?
    ensures |s.enqueued| - |s.popped| < |s.ring.buf|
  {
  }

  lemma PutKeeps(s: Sys)
    requires Safe(s) && s.prod.PPassed?
    ensures Safe(ProdNext(s))
  {
    hide Slot, Total;
    SlotIsFree(s);
    var s1 := ProdNext(s);
    var cap := |s.ring.buf|;
    forall k | 0 <= k < |s1.enqueued| && |s1.enqueued| <= k + cap
      ensures s1.ring.buf[Slot(k, cap)] == s1.enqueued[k]
    {
      if k < |s.enqueued| {
        SlotsDiffer(k, |s.enqueued|, cap);
      }
    }
    NextSlot(|s.enqueued|, cap);
  }

  lemma NextSlot(k: nat, capacity: nat)
    requires capacity > 0
    ensures Slot(k + 1, capacity) == (Slot(k, capacity) + 1) % capacity
  {
  }

  /** A consumer moves without popping or counting. */
  lemma ConsumerMoves(s: Sys, i: nat)
    requires Safe(s) && Enabled(s, ConsStep(i)) && !s.cons[i].CPassed? && !s.cons[i].CPopped? && !s.cons[i].CCounted?
    ensures Safe(ConsNext(s, i))
  {
    hide Slot, Total, WakeupsOk;
    Totals(s, i, ConsNext(s, i).cons[i]);
    MoveKeepsWakeups(s, i);
  }

  lemma MoveKeepsWakeups(s: Sys, i: nat)
    requires Safe(s) && Enabled(s, ConsStep(i)) && !s.cons[i].CPassed? && !s.cons[i].CPopped? && !s.cons[i].CCounted?
    ensures ConsNext(s, i).ring.Ok() && WakeupsOk(ConsNext(s, i))
  {
    hide Slot, Total, ContentOk, PopsOk, SingleOk, PopperLockOk;
    var s1 := ConsNext(s, i);
    Totals(s, i, s1.cons[i]);
    SleepersElsewhere(s, s1, i);
  }

  /** Sleepers and pending signals other than consumer `i` are where they were. */
  lemma SleepersElsewhere(s: Sys, s1: Sys, i: nat)
    requires i < |s.cons| == |s1.cons| && s1.cons == s.cons[i := s1.cons[i]]
    ensures SomeoneSleeps(s1) ==> SomeoneSleeps(s) || s1.cons[i].CAsleep?
    ensures SignalToPusherDue(s) && !s.cons[i].CCounted? ==> SignalToPusherDue(s1)
    ensures s1.cons[i].CCounted? ==> SignalToPusherDue(s1)
  {
    if j :| 0 <= j < |s1.cons| && s1.cons[j].CAsleep? {
      assert j == i || s.cons[j].CAsleep?;
    }
    if j :| 0 <= j < |s.cons| && s.cons[j].CCounted? {
      assert j == i || s1.cons[j].CCounted?;
    }
  }

  lemma TakeKeeps(s: Sys, i: nat)
    requires Safe(s) && Enabled(s, ConsStep(i)) && s.cons[i].CPassed?
    ensures Safe(ConsNext(s, i))
  {
    hide Slot, Total;
    var s1 := ConsNext(s, i);
    Totals(s, i, CPopped);
    SleepersElsewhere(s, s1, i);
    NextSlot(|s.popped|, |s.ring.buf|);
  }

  lemma DecrementKeeps(s: Sys, i: nat)
    requires Safe(s) && Enabled(s, ConsStep(i)) && s.cons[i].CPopped?
    ensures Safe(ConsNext(s, i))
  {
    hide Slot, Total;
    var s1 := ConsNext(s, i);
    Totals(s, i, CCounted);
    SleepersElsewhere(s, s1, i);
  }

  lemma SignalPusherKeeps(s: Sys, i: nat)
    requires Safe(s) && Enabled(s, ConsStep(i)) && s.cons[i].CCounted?
    ensures Safe(ConsNext(s, i))
  {
    hide Slot, Total;
    var s1 := ConsNext(s, i);
    Totals(s, i, CIdle);
    SleepersElsewhere(s, s1, i);
  }

  lemma WakeKeeps(s: Sys, i: nat)
    requires Safe(s) && i < |s.cons| && s.cons[i].CAsleep?
    ensures Safe(Goto(s, i, CWoken))
  {
    hide Slot, Total;
    Totals(s, i, CWoken);
    SleepersElsewhere(s, Goto(s, i, CWoken), i);
  }

  lemma SignalKeeps(s: Sys, sleeper: int)
    requires Safe(s) && Enabled(s, Signal(sleeper))
    ensures Safe(Next(s, Signal(sleeper)))
  {
    hide Slot, Total;
    if sleeper >= 0 {
      var s1 := Next(s, Signal(sleeper));
      Totals(s, sleeper, CWoken);
      SleepersElsewhere(s, s1, sleeper);
    }
  }

  lemma StepKeepsSafe(s: Sys, a: Action)
    requires Safe(s) && Enabled(s, a)
    ensures Safe(Next(s, a))
  {
    hide Slot, Total;
    match a
    case Enqueue(e) =>
    case ProdStep => if s.prod.PPassed? { PutKeeps(s); } else { ProducerKeeps(s); }
    case ProdSpurious =>
    case Signal(i) => SignalKeeps(s, i);
    case ConsSpurious(i) => WakeKeeps(s, i);
    case ConsStep(i) =>
      match s.cons[i]
      case CPassed => TakeKeeps(s, i);
      case CPopped => DecrementKeeps(s, i);
      case CCounted => SignalPusherKeeps(s, i);
      case _ => ConsumerMoves(s, i);
  }

  // ---- what was asked for ----

  /** The elements of the `pcq_enqueue` calls of a run, in order. */
  function Requested(actions: seq<Action>): seq<Elem> {
    if actions == [] then []
    else (if actions[0].Enqueue? then [actions[0].e] else []) + Requested(actions[1..])
  }

  /** The element of a call that has not stored it yet. */
  function InHand(p: Producer): seq<Elem> {
    match p
    case PLocked(e) => [e]
    case PSawFull(e) => [e]
    case PAsleep(e) => [e]
    case PWoken(e) => [e]
    case PPassed(e) => [e]
    case _ => []
  }

  lemma StepRequests(s: Sys, a: Action)
    requires s.ring.Ok() && Enabled(s, a)
    ensures var t := Next(s, a);
      t.enqueued + InHand(t.prod) == s.enqueued + InHand(s.prod) + if a.Enqueue? then [a.e] else []
  {
  }

  /** What is in the ring or was popped, and then what is in hand, is what was asked for. */
  lemma {:induction false} EnqueuedAsRequested(s: Sys, actions: seq<Action>)
    requires Run(s, actions).0
    ensures var t := Run(s, actions).1;
      t.enqueued + InHand(t.prod) == s.enqueued + InHand(s.prod) + Requested(actions)
    decreases |actions|
  {
    hide Next, Enabled, InHand;
    if actions == [] {
      assert s.enqueued + InHand(s.prod) + [] == s.enqueued + InHand(s.prod);
    } else {
      StepRequests(s, actions[0]);
      var t := Next(s, actions[0]);
      EnqueuedAsRequested(t, actions[1..]);
      var now := s.enqueued + InHand(s.prod);
      var one := if actions[0].Enqueue? then [actions[0].e] else [];
      assert (now + one) + Requested(actions[1..]) == now + (one + Requested(actions[1..]));
    }
  }

  /** From a new queue: the enqueued elements are the requested ones, but for the one in hand. */
  lemma NewQueueEnqueues(s0: Sys, consumers: nat, actions: seq<Action>)
    requires Initial(s0, consumers) && Run(s0, actions).0
    ensures var s := Run(s0, actions).1;
      && s.enqueued + InHand(s.prod) == Requested(actions)
      && s.enqueued <= Requested(actions)
      && (s.prod.PIdle? ==> s.enqueued == Requested(actions))
  {
    hide Run, Requested;
    EnqueuedAsRequested(s0, actions);
    assert [] + [] + Requested(actions) == Requested(actions);
    var s := Run(s0, actions).1;
    assert s.enqueued + [] == s.enqueued;
  }

  // ---- main results ----

  lemma {:induction false} RunIsSafe(s: Sys, actions: seq<Action>)
    requires Safe(s) && Run(s, actions).0
    ensures Safe(Run(s, actions).1) && |Run(s, actions).1.cons| == |s.cons|
    ensures |Run(s, actions).1.ring.buf| == |s.ring.buf|
    decreases |actions|
  {
    hide Safe;
    if actions != [] {
      StepKeepsSafe(s, actions[0]);
      RunIsSafe(Next(s, actions[0]), actions[1..]);
    }
  }

  /**
   * With one consumer the ring is a first-in first-out queue: the k-th pop returns the element
   * of the k-th call of `pcq_enqueue`; what is still inside fits, all calls but the one under
   * way have stored their element, and the size stays within the capacity.
   */
  lemma SingleConsumerIsFifo(s0: Sys, actions: seq<Action>)
    requires Initial(s0, 1) && Run(s0, actions).0
    ensures var s := Run(s0, actions).1;
      && |s.popped| <= |s.enqueued| <= |s.popped| + |s0.ring.buf|
      && s.enqueued + InHand(s.prod) == Requested(actions)
      && (forall k :: 0 <= k < |s.popped| ==> s.popped[k] == Pop(Requested(actions)[k], false))
      && 0 <= s.count <= |s0.ring.buf| && s.ring.size == s.count
  {
    hide Slot, Total;
    NewQueueEnqueues(s0, 1, actions);
    InitialIsSafe(s0, 1);
    RunIsSafe(s0, actions);
    var s := Run(s0, actions).1;
    Totals(s, 0, s.cons[0]);
  }

  /**
   * With any number of consumers: the size never exceeds the capacity, the producer never
   * overwrites an element that was not popped, and the k-th pop, unless it comes too early,
   * returns the element of the k-th call of `pcq_enqueue`.
   */
  lemma ManyConsumersKeep(s0: Sys, consumers: nat, actions: seq<Action>)
    requires Initial(s0, consumers) && Run(s0, actions).0
    ensures var s := Run(s0, actions).1;
      && s.count <= |s0.ring.buf|
      && |s.enqueued| - |s.popped| <= |s0.ring.buf|
      && (s.prod.PPassed? ==> |s.enqueued| - |s.popped| < |s0.ring.buf|)
      && s.enqueued + InHand(s.prod) == Requested(actions)
      && (forall k :: 0 <= k < |s.popped| && !s.popped[k].early ==>
            k < |s.enqueued| <= |Requested(actions)| && s.popped[k].value == Requested(actions)[k])
  {
    hide Slot;
    NewQueueEnqueues(s0, consumers, actions);
    InitialIsSafe(s0, consumers);
    RunIsSafe(s0, actions);
  }

  /**
   * No lost wakeup: when the producer is idle and no consumer is on its way to an element,
   * nobody sleeps while the queue holds one; and a producer sleeps while the size differs from
   * the capacity only until a consumer that is about to signal does so. The size differs from
   * the capacity whenever there is room, unless it has wrapped all the way round.
   */
  lemma NoLostWakeup(s0: Sys, consumers: nat, actions: seq<Action>)
    requires Initial(s0, consumers) && Run(s0, actions).0
    ensures var s := Run(s0, actions).1;
      && (SomeoneSleeps(s) ==> s.count <= Bit(s.prod.PCounted?) + Total(Heading, s.cons))
      && (SomeoneSleeps(s) && s.prod.PIdle? && Total(Heading, s.cons) == 0 ==> s.count <= 0)
      && (s.prod.PAsleep? && s.ring.size != |s0.ring.buf| ==> SignalToPusherDue(s))
      && (|s0.ring.buf| - TWO64 < s.count < |s0.ring.buf| ==> s.ring.size != |s0.ring.buf|)
      && (s.prod.PAsleep? && |s0.ring.buf| - TWO64 < s.count < |s0.ring.buf| ==> SignalToPusherDue(s))
  {
    hide Slot, Total;
    InitialIsSafe(s0, consumers);
    RunIsSafe(s0, actions);
  }

  /** No pop, in any run with this many consumers, comes before its element. */
  ghost predicate NeverEarly(ring: Ring, consumers: nat) {
    forall s0: Sys, actions: seq<Action> :: Initial(s0, consumers) && s0.ring == ring && Run(s0, actions).0 ==>
      forall k :: 0 <= k < |Run(s0, actions).1.popped| ==> !Run(s0, actions).1.popped[k].early
  }

  /** The run in which two consumers both pass the test on the one element there is. */
  function Race(e: Elem): seq<Action> {
    [Enqueue(e), ProdStep, ProdStep, ProdStep,
     ConsStep(0), ConsStep(0), ConsStep(1), ConsStep(1), ConsStep(0), ConsStep(1)]
  }

  ghost function Fresh(ring: Ring, consumers: nat): Sys {
    Sys(ring, 0, PIdle, seq(consumers, _ => CIdle), [], [])
  }

  lemma RunStep(s: Sys, a: Action, rest: seq<Action>)
    requires s.ring.Ok() && Enabled(s, a)
    ensures Run(s, [a] + rest) == Run(Next(s, a), rest)
  {
    assert ([a] + rest)[1..] == rest;
  }

  lemma RunEnds(s: Sys)
    ensures Run(s, []) == (true, s)
  {
  }

  /** Two consumers, whatever the capacity: the second pop returns a slot nothing was put in. */
  lemma RaceIsEarly(ring: Ring, consumers: nat, e: Elem)
    requires ring.Ok() && ring.size == ring.head == ring.tail == 0 && consumers >= 2
    ensures var (ok, s) := Run(Fresh(ring, consumers), Race(e));
      ok && |s.popped| == 2 && |s.enqueued| == 1 && s.popped[1].early
  {
    hide Run;
    var s0 := Fresh(ring, consumers);
    var s1 := Next(s0, Enqueue(e));
    var s2 := Next(s1, ProdStep);
    var s3 := Next(s2, ProdStep);
    var s4 := Next(s3, ProdStep);
    assert s4.ring.size == 1 && s4.enqueued == [e] && s4.popped == [] && s4.cons == s0.cons;
    var race := Race(e);
    RunStep(s0, race[0], race[1..]);
    RunStep(s1, race[1], race[2..]);
    RunStep(s2, race[2], race[3..]);
    RunStep(s3, race[3], race[4..]);
    assert race == [race[0]] + race[1..] && race[1..] == [race[1]] + race[2..];
    assert race[2..] == [race[2]] + race[3..] && race[3..] == [race[3]] + race[4..];
    assert race[4..] == Duel();
    DuelIsEarly(s4);
  }

  function Duel(): seq<Action> {
    [ConsStep(0), ConsStep(0), ConsStep(1), ConsStep(1), ConsStep(0), ConsStep(1)]
  }

  lemma DuelIsEarly(s: Sys)
    requires s.ring.Ok() && s.ring.size == 1 && |s.cons| >= 2 && |s.enqueued| == 1 && s.popped == []
    requires forall i :: 0 <= i < |s.cons| ==> s.cons[i].CIdle?
    ensures var (ok, t) := Run(s, Duel());
      ok && |t.popped| == 2 && |t.enqueued| == 1 && t.popped[1].early
  {
    hide Run;
    var a := Duel();
    var s1 := Next(s, a[0]);
    var s2 := Next(s1, a[1]);
    var s3 := Next(s2, a[2]);
    var s4 := Next(s3, a[3]);
    var s5 := Next(s4, a[4]);
    var s6 := Next(s5, a[5]);
    RunStep(s, a[0], a[1..]);
    RunStep(s1, a[1], a[2..]);
    RunStep(s2, a[2], a[3..]);
    RunStep(s3, a[3], a[4..]);
    RunStep(s4, a[4], a[5..]);
    RunStep(s5, a[5], []);
    RunEnds(s6);
    assert a == [a[0]] + a[1..] && a[1..] == [a[1]] + a[2..] && a[2..] == [a[2]] + a[3..];
    assert a[3..] == [a[3]] + a[4..] && a[4..] == [a[4]] + a[5..] && a[5..] == [a[5]] + [];
  }

  /** No pop is ever early iff there is at most one consumer; the broker starts max_sessions of them. */
  lemma NeverEarlyIffOneConsumer(ring: Ring, consumers: nat)
    requires ring.Ok() && ring.size == ring.head == ring.tail == 0
    ensures NeverEarly(ring, consumers) <==> consumers <= 1
  {
    hide Run;
    if consumers <= 1 {
      forall s0: Sys, actions: seq<Action> | Initial(s0, consumers) && Run(s0, actions).0
        ensures forall k :: 0 <= k < |Run(s0, actions).1.popped| ==> !Run(s0, actions).1.popped[k].early
      {
        InitialIsSafe(s0, consumers);
        RunIsSafe(s0, actions);
      }
    } else {
      RaceIsEarly(ring, consumers, 0);
      assert Initial(Fresh(ring, consumers), consumers);
    }
  }
}
