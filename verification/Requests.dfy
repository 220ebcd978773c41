/** The fixed-width request records on the broker's pipe: `parse_message` and `parser`. */
module Requests {
  import opened Bytes
  import opened Common

  const RECORD := 1 + PIPE_LENGTH + BOX_NAME_LENGTH
  const SHORT_RECORD := 1 + PIPE_LENGTH

  /** A list request carries no box name; its field is never read. */
  datatype Request = Request(op: byte, pipe: seq<byte>, box: seq<byte>)

  /** What the four clients send. */
  predicate IsClientRequest(r: Request) {
    && r.op in {REGIST_PUB, REGIST_SUB, CREATE_BOX, REMOVE_BOX, LIST_BOXES}
    && NulFree(r.pipe) && NulFree(r.box)
    && (r.op == LIST_BOXES ==> r.box == [])
  }

  /** Where `memcpy(strlen)` stays inside the 287-byte buffer; nothing is truncated. */
  predicate InBuffer(r: Request) {
    |r.pipe| < RECORD && |r.box| <= BOX_NAME_LENGTH
  }

  /** The buffer `parse_message` returns. */
  function Buffer(r: Request): (b: seq<byte>)
    requires InBuffer(r)
    ensures |b| == RECORD
  {
    Patch(Patch([r.op] + Zeros(RECORD - 1), 1, r.pipe), 1 + PIPE_LENGTH, r.box)
  }

  /** `memset`, then the opcode and the names at their offsets through a moving index. */
  method ParseMessage(r: Request) returns (buffer: array<byte>)
    requires InBuffer(r)
    ensures fresh(buffer) && buffer[..] == Buffer(r)
  {
    buffer := new byte[RECORD];
    var i := 0;
    while i < RECORD
      invariant 0 <= i <= RECORD
      invariant forall j :: 0 <= j < i ==> buffer[j] == 0
    {
      buffer[i] := 0;
      i := i + 1;
    }
    var tmp := 0;
    buffer[tmp] := r.op;
    tmp := tmp + 1;
    assert buffer[..] == [r.op] + Zeros(RECORD - 1);
    CopyIn(buffer, tmp, r.pipe);
    tmp := tmp + PIPE_LENGTH;
    CopyIn(buffer, tmp, r.box);
  }

  /** What a client writes: a list request leaves the box field off. */
  function Sent(r: Request): (b: seq<byte>)
    requires InBuffer(r)
    ensures |b| == if r.op == LIST_BOXES then SHORT_RECORD else RECORD
  {
    if r.op == LIST_BOXES then Buffer(r)[..SHORT_RECORD] else Buffer(r)
  }

  function SentAll(rs: seq<Request>): seq<byte>
    requires forall i :: 0 <= i < |rs| ==> InBuffer(rs[i])
  {
    if rs == [] then [] else Sent(rs[0]) + SentAll(rs[1..])
  }

  // ---- the broker's side ----

  /** `Runaway`: a field without terminator, which `strncpy` would read past. */
  datatype Parsed = Request1(r: Request, rest: seq<byte>) | BadOpcode | ShortRead | Runaway

  /** `parser`, on a stream that holds at least the opcode. */
  function ParseOne(stream: seq<byte>): (p: Parsed)
    requires stream != []
    ensures p.Request1? ==> |p.rest| < |stream|
  {
    var op := stream[0];
    if op > 7 then BadOpcode
    else if |stream| < SHORT_RECORD then ShortRead
    else
      var pipe := CStr(stream[1..SHORT_RECORD]);
      if |pipe| == PIPE_LENGTH then Runaway
      else if op == LIST_BOXES then Request1(Request(op, pipe, []), stream[SHORT_RECORD..])
      else if |stream| < RECORD then ShortRead
      else
        var box := CStr(stream[SHORT_RECORD..RECORD]);
        if |box| == BOX_NAME_LENGTH then Runaway
        else Request1(Request(op, pipe, box), stream[RECORD..])
  }

  /** A field of the stream that holds a terminator. */
  ghost predicate Terminated(stream: seq<byte>, lo: nat, hi: nat)
    requires lo <= hi <= |stream|
  {
    exists k :: lo <= k < hi && stream[k] == 0
  }

  lemma CStrTerminated(stream: seq<byte>, lo: nat, hi: nat)
    requires lo <= hi <= |stream|
    ensures |CStr(stream[lo..hi])| < hi - lo <==> Terminated(stream, lo, hi)
  {
    var field := stream[lo..hi];
    var c := CStr(field);
    if |c| < hi - lo {
      assert stream[lo + |c|] == field[|c|] == 0;
    } else {
      forall k | lo <= k < hi ensures stream[k] != 0 {
        assert stream[k] == c[k - lo];
      }
    }
  }

  /** The pipe runs dry in the pipe name, or behind a good one in the box name. */
  ghost predicate CutShort(stream: seq<byte>)
    requires stream != []
  {
    || |stream| < SHORT_RECORD
    || (Terminated(stream, 1, SHORT_RECORD) && stream[0] != LIST_BOXES && |stream| < RECORD)
  }

  /** A field that is read has no terminator. */
  ghost predicate RunsOn(stream: seq<byte>)
    requires stream != []
  {
    && |stream| >= SHORT_RECORD
    && (!Terminated(stream, 1, SHORT_RECORD) ||
        (stream[0] != LIST_BOXES && |stream| >= RECORD && !Terminated(stream, SHORT_RECORD, RECORD)))
  }

  /** Exactly when the parser refuses, and why, whoever wrote the stream; otherwise what it takes from it. */
  lemma ParserDecides(stream: seq<byte>)
    requires stream != []
    ensures var p := ParseOne(stream); var op := stream[0];
      && (p.BadOpcode? <==> op > LIST_BOXES)
      && (p.ShortRead? <==> op <= LIST_BOXES && CutShort(stream))
      && (p.Runaway? <==> op <= LIST_BOXES && RunsOn(stream))
      && (p.Request1? ==>
            && p.r.op == op && NulFree(p.r.pipe) && NulFree(p.r.box)
            && p.r.pipe + [0] <= stream[1..]
            && if op == LIST_BOXES then p.r.box == [] && p.rest == stream[SHORT_RECORD..]
               else p.r.box + [0] <= stream[SHORT_RECORD..] && p.rest == stream[RECORD..])
  {
    hide CStr, Terminated;
    if |stream| >= SHORT_RECORD {
      CStrTerminated(stream, 1, SHORT_RECORD);
      assert CStr(stream[1..SHORT_RECORD]) <= stream[1..];
      if |stream| >= RECORD {
        CStrTerminated(stream, SHORT_RECORD, RECORD);
        assert CStr(stream[SHORT_RECORD..RECORD]) <= stream[SHORT_RECORD..];
      }
    }
  }

  datatype Verdict = AllRead | Stopped(why: Parsed)

  /** The requests the main loop hands to the queue, and how it ends. */
  function ParseAll(stream: seq<byte>): (seq<Request>, Verdict)
    decreases |stream|
  {
    if stream == [] then ([], AllRead) else
    match ParseOne(stream)
    case Request1(r, rest) => var (rs, verdict) := ParseAll(rest); ([r] + rs, verdict)
    case bad => ([], Stopped(bad))
  }

  lemma ParseAllStep(stream: seq<byte>, before: seq<Request>)
    requires stream != []
    ensures match ParseOne(stream)
      case Request1(r, rest) =>
        && ParseAll(stream).1 == ParseAll(rest).1
        && before + ParseAll(stream).0 == (before + [r]) + ParseAll(rest).0
      case bad => before + ParseAll(stream).0 == before && ParseAll(stream).1 == Stopped(bad)
  {
    hide ParseOne;
  }

  /** The main loop: an opcode, then `parser`, until the pipe runs dry. */
  method ReadRequests(stream: seq<byte>) returns (rs: seq<Request>, verdict: Verdict)
    ensures (rs, verdict) == ParseAll(stream)
  {
    hide ParseOne, ParseAll;
    rs := [];
    var rest := stream;
    assert [] + ParseAll(stream).0 == ParseAll(stream).0;
    while rest != []
      invariant rs + ParseAll(rest).0 == ParseAll(stream).0
      invariant ParseAll(rest).1 == ParseAll(stream).1
      decreases |rest|
    {
      ParseAllStep(rest, rs);
      var p := ParseOne(rest);
      if !p.Request1? {
        return rs, Stopped(p);
      }
      rs, rest := rs + [p.r], p.rest;
    }
    ParseAllEmpty();
    assert rs + [] == rs;
    verdict := AllRead;
  }

  lemma ParseAllEmpty()
    ensures ParseAll([]) == ([], AllRead)
  {
  }

  // ---- round trip ----

  /** The names leave room for a terminator in their fields. */
  predicate Fits(r: Request) {
    |r.pipe| < PIPE_LENGTH && |r.box| < BOX_NAME_LENGTH
  }

  lemma PipeField(r: Request)
    requires InBuffer(r) && NulFree(r.pipe)
    ensures var field := Buffer(r)[1..SHORT_RECORD];
      if |r.pipe| < PIPE_LENGTH then CStr(field) == r.pipe else |CStr(field)| == PIPE_LENGTH
  {
    var field := Buffer(r)[1..SHORT_RECORD];
    if |r.pipe| < PIPE_LENGTH {
      assert field == r.pipe + [0] + Zeros(PIPE_LENGTH - |r.pipe| - 1);
      CStrOf(r.pipe, Zeros(PIPE_LENGTH - |r.pipe| - 1));
    } else {
      assert field == r.pipe[..PIPE_LENGTH];
      CStrWhole(field);
    }
  }

  lemma BoxField(r: Request)
    requires InBuffer(r) && NulFree(r.box) && |r.pipe| < PIPE_LENGTH
    ensures var field := Buffer(r)[SHORT_RECORD..RECORD];
      if |r.box| < BOX_NAME_LENGTH then CStr(field) == r.box else |CStr(field)| == BOX_NAME_LENGTH
  {
    var field := Buffer(r)[SHORT_RECORD..RECORD];
    if |r.box| < BOX_NAME_LENGTH {
      assert field == r.box + [0] + Zeros(BOX_NAME_LENGTH - |r.box| - 1);
      CStrOf(r.box, Zeros(BOX_NAME_LENGTH - |r.box| - 1));
    } else {
      assert field == r.box;
      CStrWhole(field);
    }
  }

  /** A request comes through as it was sent, with nothing taken from what follows, iff its names fit. */
  lemma OneRoundTrip(r: Request, rest: seq<byte>)
    requires IsClientRequest(r) && InBuffer(r)
    ensures ParseOne(Sent(r) + rest) == Request1(r, rest) <==> Fits(r)
  {
    var stream := Sent(r) + rest;
    var buffer := Buffer(r);
    assert buffer[0] == r.op;
    assert stream[1..SHORT_RECORD] == buffer[1..SHORT_RECORD];
    PipeField(r);
    if |r.pipe| < PIPE_LENGTH && r.op != LIST_BOXES {
      assert stream[SHORT_RECORD..RECORD] == buffer[SHORT_RECORD..RECORD];
      BoxField(r);
    }
    assert stream[|Sent(r)|..] == rest;
  }

  /** Any sequence of requests whose names fit is read back in frame, short records and all. */
  lemma {:induction false} StreamRoundTrip(rs: seq<Request>)
    requires forall i :: 0 <= i < |rs| ==> IsClientRequest(rs[i]) && InBuffer(rs[i]) && Fits(rs[i])
    ensures ParseAll(SentAll(rs)) == (rs, AllRead)
  {
    hide ParseOne, Sent, IsClientRequest, InBuffer, Fits;
    if rs != [] {
      OneRoundTrip(rs[0], SentAll(rs[1..]));
      StreamRoundTrip(rs[1..]);
      assert [rs[0]] + rs[1..] == rs;
    }
  }

  /** A refusal behind good requests stops the loop there, with all of them read. */
  lemma {:induction false} StopsAtRefusal(rs: seq<Request>, bad: seq<byte>)
    requires forall i :: 0 <= i < |rs| ==> IsClientRequest(rs[i]) && InBuffer(rs[i]) && Fits(rs[i])
    requires bad != [] && !ParseOne(bad).Request1?
    ensures ParseAll(SentAll(rs) + bad) == (rs, Stopped(ParseOne(bad)))
  {
    hide ParseOne, Sent, IsClientRequest, InBuffer, Fits;
    if rs == [] {
      assert SentAll(rs) + bad == bad;
    } else {
      OneRoundTrip(rs[0], SentAll(rs[1..]) + bad);
      StopsAtRefusal(rs[1..], bad);
      Associative(Sent(rs[0]), SentAll(rs[1..]), bad);
      assert [rs[0]] + rs[1..] == rs;
    }
  }
}
