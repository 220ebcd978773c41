/** Messages in a box file: each one its bytes and a terminating NUL. */
module Messages {
  import opened Bytes
  import opened Common

  /** What a publisher's record can hold: at most 1023 bytes before the terminator. */
  predicate MessageOk(m: seq<byte>) {
    NulFree(m) && |m| <= MESSAGE_LENGTH
  }

  ghost predicate MessagesOk(ms: seq<seq<byte>>) {
    forall i :: 0 <= i < |ms| ==> MessageOk(ms[i])
  }

  function Encode(m: seq<byte>): (b: seq<byte>)
    ensures |b| == |m| + 1
  {
    m + [0]
  }

  function EncodeAll(ms: seq<seq<byte>>): seq<byte> {
    if ms == [] then [] else EncodeAll(ms[..|ms| - 1]) + Encode(ms[|ms| - 1])
  }

  lemma EncodeAllSnoc(ms: seq<seq<byte>>, m: seq<byte>)
    ensures EncodeAll(ms + [m]) == EncodeAll(ms) + Encode(m)
  {
    assert (ms + [m])[..|ms|] == ms;
  }

  lemma {:induction false} EncodeAllCons(m: seq<byte>, ms: seq<seq<byte>>)
    ensures EncodeAll([m] + ms) == Encode(m) + EncodeAll(ms)
  {
    if ms == [] {
      assert [m] + ms == [m];
      assert EncodeAll([m]) == EncodeAll([]) + Encode(m);
    } else {
      var front, last := ms[..|ms| - 1], ms[|ms| - 1];
      EncodeAllCons(m, front);
      EncodeAllSnoc([m] + front, last);
      assert [m] + ms == ([m] + front) + [last];
      Associative(Encode(m), EncodeAll(front), Encode(last));
    }
  }

  /** The strings a box's bytes are taken apart into. */
  function Split(b: seq<byte>): seq<seq<byte>>
    decreases |b|
  {
    if b == [] then [] else
    var m := CStr(b);
    if |m| == |b| then [m] else [m] + Split(b[|m| + 1..])
  }

  /** Splitting undoes encoding, for any list of NUL-free messages. */
  lemma {:induction false} SplitEncodeAll(ms: seq<seq<byte>>)
    requires forall i :: 0 <= i < |ms| ==> NulFree(ms[i])
    ensures Split(EncodeAll(ms)) == ms
  {
    if ms != [] {
      var rest := ms[1..];
      assert ms == [ms[0]] + rest;
      EncodeAllCons(ms[0], rest);
      SplitEncodeAll(rest);
      CStrOf(ms[0], EncodeAll(rest));
      assert EncodeAll(ms)[|ms[0]| + 1..] == EncodeAll(rest);
    }
  }

  /** Splitting loses nothing, whatever the bytes: the pieces, each with its NUL, are the bytes again. */
  lemma {:induction false} SplitLosesNothing(b: seq<byte>)
    ensures EncodeAll(Split(b)) == b + if b == [] || b[|b| - 1] == 0 then [] else [0]
    ensures forall k :: 0 <= k < |Split(b)| ==> NulFree(Split(b)[k])
    decreases |b|
  {
    hide EncodeAll, CStr;
    NothingEncoded();
    if b != [] {
      var m := CStr(b);
      if |m| == |b| {
        EncodeAllCons(m, []);
        assert [m] + [] == [m] && b == m;
        assert Encode(m) + [] == Encode(m);
      } else {
        var rest := b[|m| + 1..];
        SplitLosesNothing(rest);
        EncodeAllCons(m, Split(rest));
        assert b == Encode(m) + rest;
        Associative(Encode(m), rest, if rest == [] || rest[|rest| - 1] == 0 then [] else [0]);
        assert rest != [] ==> rest[|rest| - 1] == b[|b| - 1];
      }
    }
  }

  /** The complete strings at the start of a byte stream; what follows its last NUL is not one yet. */
  function Complete(b: seq<byte>): seq<seq<byte>>
    decreases |b|
  {
    var m := CStr(b);
    if |m| == |b| then [] else [m] + Complete(b[|m| + 1..])
  }

  /** However far a reader has got, the complete strings it has are the first of the messages. */
  lemma {:induction false} CompletePrefix(ms: seq<seq<byte>>, tail: seq<byte>, r: seq<byte>)
    requires (forall i :: 0 <= i < |ms| ==> NulFree(ms[i])) && NulFree(tail)
    requires r <= EncodeAll(ms) + tail
    ensures Complete(r) <= ms
  {
    hide EncodeAll, CStr;
    if ms == [] {
      NothingEncoded();
      assert EncodeAll(ms) + tail == tail;
      CStrWhole(r);
    } else {
      var m, rest := ms[0], ms[1..];
      assert ms == [m] + rest;
      EncodeAllCons(m, rest);
      var whole := EncodeAll(ms) + tail;
      assert whole[..|m|] == m && whole[|m|] == 0 && whole[|m| + 1..] == EncodeAll(rest) + tail;
      if |r| <= |m| {
        assert r == m[..|r|];
        CStrWhole(r);
      } else {
        assert r[..|m|] == m && r[|m|] == 0;
        CStrBefore(r, |m|);
        assert r[|m| + 1..] <= EncodeAll(rest) + tail;
        CompletePrefix(rest, tail, r[|m| + 1..]);
      }
    }
  }

  lemma NothingEncoded()
    ensures EncodeAll([]) == []
  {
  }

  /** The record a subscriber is sent: the message padded with NULs to 1023 bytes. */
  function Frame(m: seq<byte>): (f: seq<byte>)
    requires |m| <= MESSAGE_LENGTH
    ensures |f| == MESSAGE_LENGTH
  {
    m + Zeros(MESSAGE_LENGTH - |m|)
  }

  /** A record that carries a message: the message first, and nothing but NULs behind it. */
  ghost predicate Carries(f: seq<byte>, m: seq<byte>) {
    && |f| == MESSAGE_LENGTH && m <= f
    && forall k :: |m| <= k < |f| ==> f[k] == 0
  }

  /** The record carries its message, and whoever reads it as a string gets that message back. */
  lemma FrameCarries(m: seq<byte>)
    requires MessageOk(m)
    ensures Carries(Frame(m), m) && CStr(Frame(m)) == m
  {
    if |m| < MESSAGE_LENGTH {
      CStrBefore(Frame(m), |m|);
    } else {
      assert Frame(m) == m;
      CStrWhole(m);
    }
  }

  /** `strlen(&buffer[at])`, which looks for a terminator before `end`. */
  method StrLen(buffer: array<byte>, at: nat, ghost end: nat) returns (n: nat)
    requires at <= end <= buffer.Length
    requires exists z :: at <= z < end && buffer[z] == 0
    ensures at + n < end && buffer[at + n] == 0
    ensures CStr(buffer[at..end]) == buffer[at..at + n]
  {
    n := 0;
    ghost var z :| at <= z < end && buffer[z] == 0;
    while buffer[at + n] != 0
      invariant at + n <= z
      invariant forall i :: at <= i < at + n ==> buffer[i] != 0
      decreases z - n
    {
      n := n + 1;
    }
    hide CStr;
    assert buffer[at..end][..n] == buffer[at..at + n];
    CStrBefore(buffer[at..end], n);
  }

  /** The messages from the k-th on, encoded: the k-th, its NUL, and the others. */
  lemma NextMessage(b: seq<byte>, ms: seq<seq<byte>>, k: nat)
    requires k < |ms| && b == EncodeAll(ms[k..]) && NulFree(ms[k])
    ensures |ms[k]| < |b| && b[|ms[k]|] == 0 && CStr(b) == b[..|ms[k]|] == ms[k]
    ensures b[|ms[k]| + 1..] == EncodeAll(ms[k + 1..])
  {
    hide CStr;
    assert ms[k..] == [ms[k]] + ms[k + 1..];
    EncodeAllCons(ms[k], ms[k + 1..]);
    CStrOf(ms[k], EncodeAll(ms[k + 1..]));
  }

  /**
   * The replay loop of `handle_messages_until_now`: takes `bytesRead` bytes of a buffer apart
   * at the NULs. On the encoding of a list of messages it sends exactly those messages, in
   * order, never looks past `bytesRead`, and its offset ends there.
   */
  method Replay(buffer: array<byte>, bytesRead: nat, ghost ms: seq<seq<byte>>)
    returns (sent: seq<seq<byte>>, offset: nat)
    requires bytesRead <= buffer.Length && MessagesOk(ms)
    requires buffer[..bytesRead] == EncodeAll(ms)
    ensures |sent| == |ms|
    ensures forall i :: 0 <= i < |sent| ==> Carries(sent[i], ms[i]) && CStr(sent[i]) == ms[i]
    ensures offset == bytesRead
  {
    hide CStr, EncodeAll, Frame, Carries;
    ghost var text := buffer[..bytesRead];
    sent, offset := [], 0;
    assert ms[0..] == ms && text[0..] == text;
    while offset < bytesRead
      invariant offset <= bytesRead && |sent| <= |ms|
      invariant text[offset..] == EncodeAll(ms[|sent|..])
      invariant forall i :: 0 <= i < |sent| ==> Carries(sent[i], ms[i]) && CStr(sent[i]) == ms[i]
    {
      ghost var k := |sent|;
      SomethingLeft(ms, k);
      FrameCarries(ms[k]);
      NextMessage(text[offset..], ms, k);
      TailAt(text, offset, |ms[k]|);
      assert buffer[offset..bytesRead] == text[offset..];
      var n := StrLen(buffer, offset, bytesRead);
      sent := sent + [Frame(buffer[offset..offset + n])];
      offset := offset + n + 1;
    }
    MessagesTakeRoom(ms[|sent|..]);
  }

  lemma TailAt(text: seq<byte>, at: nat, n: nat)
    requires at + n < |text|
    ensures text[at..][n] == text[at + n] && text[at..][n + 1..] == text[at + n + 1..]
  {
  }

  lemma SomethingLeft(ms: seq<seq<byte>>, k: nat)
    requires k <= |ms| && EncodeAll(ms[k..]) != []
    ensures k < |ms|
  {
  }

  lemma {:induction false} MessagesTakeRoom(ms: seq<seq<byte>>)
    ensures |EncodeAll(ms)| >= |ms|
  {
    if ms != [] {
      MessagesTakeRoom(ms[..|ms| - 1]);
    }
  }
}
