/**
 * The bounded request queue. `pcq_enqueue` and `pcq_dequeue` test the size, touch the buffer
 * and update the size in three separate critical sections; here every section is a step, and
 * one producer and any number of consumers interleave freely.
 */
module PcQueue {
  import opened Bytes

  type Elem = int // the address of a request

  // ---- the queue object ----

  datatype Ring = Ring(buf: seq<Elem>, size: nat, head: nat, tail: nat) {
    predicate Ok() {
      0 < |buf| < TWO64 && head < |buf| && tail < |buf| && size < TWO64
    }

    function Put(e: Elem): (r: Ring)
      requires Ok()
      ensures r.Ok()
    {
      this.(buf := buf[tail := e], tail := (tail + 1) % |buf|)
    }

    function Take(): (r: (Ring, Elem))
      requires Ok()
      ensures r.0.Ok()
    {
      (this.(head := (head + 1) % |buf|), buf[head])
    }

    /** `pcq_current_size` is a size_t: it wraps. */
    function Resize(delta: int): (r: Ring)
      requires Ok()
      ensures r.Ok()
    {
      this.(size := (size + delta) % TWO64)
    }
  }

  /** The fields of `pc_queue_t`, and the critical sections that change them. */
  class Queue {
    const capacity: nat
    const buffer: array<Elem>
    var currentSize: nat
    var head: nat
    var tail: nat

    ghost function View(): Ring
      reads this, buffer
    {
      Ring(buffer[..], currentSize, head, tail)
    }

    ghost predicate Valid()
      reads this, buffer
    {
      buffer.Length == capacity && View().Ok()
    }

    constructor (capacity: nat)
      requires 0 < capacity < TWO64
      ensures Valid() && this.capacity == capacity
      ensures currentSize == head == tail == 0
    {
      this.capacity := capacity;
      buffer := new Elem[capacity];
      currentSize, head, tail := 0, 0, 0;
    }

    /** `pcq_create` refuses a queue that could hold nothing. */
    static method Create(capacity: nat) returns (q: Queue?)
      requires capacity < TWO64
      ensures q == null <==> capacity == 0
      ensures q != null ==> q.Valid() && fresh(q) && q.capacity == capacity && q.View().size == 0 && q.head == q.tail
    {
      if capacity == 0 {
        return null;
      }
      q := new Queue(capacity);
    }

    /** Under `pcq_tail_lock`. */
    method Put(e: Elem)
      requires Valid()
      modifies this`tail, buffer
      ensures Valid() && View() == old(View()).Put(e)
    {
      buffer[tail] := e;
      tail := (tail + 1) % capacity;
    }

    /** Under `pcq_head_lock`. */
    method Take() returns (e: Elem)
      requires Valid()
      modifies this`head
      ensures Valid() && (View(), e) == old(View()).Take()
    {
      e := buffer[head];
      head := (head + 1) % capacity;
    }

    /** Under `pcq_current_size_lock`. */
    method Resize(delta: int)
      requires Valid()
      modifies this`currentSize
      ensures Valid() && View() == old(View()).Resize(delta)
    {
      currentSize := (currentSize + delta) % TWO64;
    }
  }

  // ---- the interleaving ----

  /** The one producer, in `pcq_enqueue`. */
  datatype Producer =
    | PIdle
    | PLocked(e: Elem)     // holds the pusher lock, at the size test
    | PSawFull(e: Elem)    // holds the pusher lock, about to wait
    | PAsleep(e: Elem)
    | PWoken(e: Elem)
    | PPassed(e: Elem)     // past the wait loop
    | PWritten             // slot filled, size not yet updated
    | PCounted             // size updated, signal pending

  /** A consumer, in `pcq_dequeue`. */
  datatype Consumer =
    | CIdle
    | CLocked(woken: bool) // holds the popper lock, at the size test
    | CSawZero             // holds the popper lock, about to wait
    | CAsleep
    | CWoken
    | CPassed
    | CPopped              // slot read, size not yet updated
    | CCounted             // size updated, signal pending

  /** A value returned by the k-th pop; `early` if the k-th element had not been written yet. */
  datatype Pop = Pop(value: Elem, early: bool)

  datatype Sys = Sys(
    ring: Ring,
    count: int,            // pcq_current_size without the wrap-around
    prod: Producer, cons: seq<Consumer>,
    enqueued: seq<Elem>, popped: seq<Pop>)

  datatype Action =
    | Enqueue(e: Elem)
    | ProdStep
    | ProdSpurious
    | ConsStep(i: nat)
    | ConsSpurious(i: nat)
    | Signal(sleeper: int) // the producer's signal, and the consumer it wakes (-1: nobody sleeps)

  predicate PusherLockHeld(s: Sys) {
    s.prod.PLocked? || s.prod.PSawFull?
  }

  predicate HoldsPopperLock(c: Consumer) {
    c.CLocked? || c.CSawZero?
  }

  ghost predicate PopperLockFree(s: Sys) {
    forall j :: 0 <= j < |s.cons| ==> !HoldsPopperLock(s.cons[j])
  }

  ghost predicate Enabled(s: Sys, a: Action) {
    match a
    case Enqueue(e) => s.prod.PIdle?
    case ProdStep => !s.prod.PIdle? && !s.prod.PAsleep? && !s.prod.PCounted?
    case ProdSpurious => s.prod.PAsleep?
    case Signal(i) =>
      && s.prod.PCounted? && PopperLockFree(s)
      && if i == -1 then forall j :: 0 <= j < |s.cons| ==> !s.cons[j].CAsleep?
         else 0 <= i < |s.cons| && s.cons[i].CAsleep?
    case ConsStep(i) =>
      && i < |s.cons|
      && match s.cons[i] {
           case CIdle => PopperLockFree(s)
           case CWoken => PopperLockFree(s)
           case CAsleep => false
           case CCounted => !PusherLockHeld(s)
           case _ => true
         }
    case ConsSpurious(i) => i < |s.cons| && s.cons[i].CAsleep?
  }

  function Goto(s: Sys, i: nat, c: Consumer): Sys
    requires i < |s.cons|
  {
    s.(cons := s.cons[i := c])
  }

  function ProdNext(s: Sys): Sys
    requires s.ring.Ok()
  {
    match s.prod
    case PLocked(e) => s.(prod := if s.ring.size == |s.ring.buf| then PSawFull(e) else PPassed(e))
    case PSawFull(e) => s.(prod := PAsleep(e))
    case PWoken(e) => s.(prod := PLocked(e))
    case PPassed(e) => s.(prod := PWritten, ring := s.ring.Put(e), enqueued := s.enqueued + [e])
    case PWritten => s.(prod := PCounted, ring := s.ring.Resize(1), count := s.count + 1)
    case _ => s
  }

  function ConsNext(s: Sys, i: nat): Sys
    requires s.ring.Ok() && i < |s.cons|
  {
    match s.cons[i]
    case CIdle => Goto(s, i, CLocked(false))
    case CLocked(_) => Goto(s, i, if s.ring.size == 0 then CSawZero else CPassed)
    case CSawZero => Goto(s, i, CAsleep)
    case CWoken => Goto(s, i, CLocked(true))
    case CPassed =>
      var (ring, e) := s.ring.Take();
      Goto(s.(ring := ring, popped := s.popped + [Pop(e, |s.popped| >= |s.enqueued|)]), i, CPopped)
    case CPopped => Goto(s.(ring := s.ring.Resize(-1), count := s.count - 1), i, CCounted)
    case CCounted => Goto(s.(prod := if s.prod.PAsleep? then PWoken(s.prod.e) else s.prod), i, CIdle)
    case CAsleep => s
  }

  ghost function Next(s: Sys, a: Action): Sys
    requires s.ring.Ok() && Enabled(s, a)
  {
    match a
    case Enqueue(e) => s.(prod := PLocked(e))
    case ProdStep => ProdNext(s)
    case ProdSpurious => s.(prod := PWoken(s.prod.e))
    case Signal(i) => if i == -1 then s.(prod := PIdle) else Goto(s.(prod := PIdle), i, CWoken)
    case ConsStep(i) => ConsNext(s, i)
    case ConsSpurious(i) => Goto(s, i, CWoken)
  }

  /** A new queue: the buffer is whatever `malloc` returned. */
  predicate Initial(s: Sys, consumers: nat) {
    && s.ring.Ok() && s.ring.size == s.ring.head == s.ring.tail == 0 == s.count
    && s.prod.PIdle? && |s.cons| == consumers && s.enqueued == [] && s.popped == []
    && forall i :: 0 <= i < |s.cons| ==> s.cons[i].CIdle?
  }

  /** The state after a list of actions, provided each is enabled in its turn. */
  ghost function Run(s: Sys, actions: seq<Action>): (r: (bool, Sys))
    decreases |actions|
  {
    if actions == [] then (true, s)
    else if s.ring.Ok() && Enabled(s, actions[0]) then Run(Next(s, actions[0]), actions[1..])
    else (false, s)
  }
}
