/** The reply to a list request: the broker writes one record a box, the manager reads to the flagged one. */
module ListReply {
  import opened Bytes
  import opened Common
  import opened Inodes
  import opened Registry

  const RECORD_LENGTH := 57 // opcode, flag, name, three 64-bit counters

  predicate BoxOk(b: Box) {
    && 0 < |b.name| <= BOX_NAME_LENGTH && NulFree(b.name)
    && b.size < TWO64 && b.publishers < TWO64 && b.subscribers < TWO64
  }

  function NameField(name: seq<byte>): (f: seq<byte>)
    requires |name| <= BOX_NAME_LENGTH
    ensures |f| == BOX_NAME_LENGTH
  {
    name + Zeros(BOX_NAME_LENGTH - |name|)
  }

  function Flag(last: bool): byte {
    if last then 1 else 0
  }

  function Record(b: Box, last: bool): (r: seq<byte>)
    requires |b.name| <= BOX_NAME_LENGTH
    ensures |r| == RECORD_LENGTH
  {
    [LIST_BOXES_ANSWER, Flag(last)] + NameField(b.name) + LE(b.size, 8) + LE(b.publishers, 8) + LE(b.subscribers, 8)
  }

  /** Records that are none of them the last. */
  function Unflagged(boxes: seq<Box>): seq<byte>
    requires forall i :: 0 <= i < |boxes| ==> |boxes[i].name| <= BOX_NAME_LENGTH
  {
    if boxes == [] then [] else Unflagged(boxes[..|boxes| - 1]) + Record(boxes[|boxes| - 1], false)
  }

  /** One record a box, in order, only the final one flagged. */
  function Stream(boxes: seq<Box>): seq<byte>
    requires forall i :: 0 <= i < |boxes| ==> |boxes[i].name| <= BOX_NAME_LENGTH
  {
    if boxes == [] then [] else Unflagged(boxes[..|boxes| - 1]) + Record(boxes[|boxes| - 1], true)
  }

  /** The boxes in the slots that are not free, in slot order. */
  function LiveBoxes(boxes: seq<Box>, free: seq<bool>): (live: seq<Box>)
    requires |boxes| == |free|
    ensures |live| <= |boxes|
    ensures forall i :: 0 <= i < |live| ==> live[i] in boxes
  {
    if boxes == [] then []
    else (if free[0] then [] else [boxes[0]]) + LiveBoxes(boxes[1..], free[1..])
  }

  /** With no boxes the broker writes a record without counters for every slot, flagged from the first on. */
  function ShortRecord(b: Box): (r: seq<byte>)
    requires |b.name| <= BOX_NAME_LENGTH
    ensures |r| == 2 + BOX_NAME_LENGTH
  {
    [LIST_BOXES_ANSWER, Flag(true)] + NameField(b.name)
  }

  function ShortStream(boxes: seq<Box>): seq<byte>
    requires forall i :: 0 <= i < |boxes| ==> |boxes[i].name| <= BOX_NAME_LENGTH
  {
    if boxes == [] then [] else ShortStream(boxes[..|boxes| - 1]) + ShortRecord(boxes[|boxes| - 1])
  }

  /** What the broker writes in reply to a list request. */
  function Reply(boxes: seq<Box>, free: seq<bool>): seq<byte>
    requires |boxes| == |free| && forall i :: 0 <= i < |boxes| ==> |boxes[i].name| <= BOX_NAME_LENGTH
  {
    if LiveBoxes(boxes, free) == [] then ShortStream(boxes) else Stream(LiveBoxes(boxes, free))
  }

  // ---- the broker ----

  lemma {:induction false} UnflaggedCons(b: Box, boxes: seq<Box>)
    requires |b.name| <= BOX_NAME_LENGTH && forall i :: 0 <= i < |boxes| ==> |boxes[i].name| <= BOX_NAME_LENGTH
    ensures Unflagged([b] + boxes) == Record(b, false) + Unflagged(boxes)
  {
    hide Record;
    if boxes == [] {
      assert ([b] + boxes)[..0] == [];
    } else {
      var front, last := boxes[..|boxes| - 1], boxes[|boxes| - 1];
      UnflaggedCons(b, front);
      assert ([b] + boxes)[..|boxes|] == [b] + front;
      Associative(Record(b, false), Unflagged(front), Record(last, false));
    }
  }

  /** The same stream from its first record on, as the manager reads it. */
  lemma StreamCons(boxes: seq<Box>)
    requires boxes != [] && forall i :: 0 <= i < |boxes| ==> |boxes[i].name| <= BOX_NAME_LENGTH
    ensures Stream(boxes) == Record(boxes[0], |boxes| == 1) + Stream(boxes[1..])
  {
    hide Record;
    if |boxes| > 1 {
      var mid, last := boxes[1..|boxes| - 1], boxes[|boxes| - 1];
      UnflaggedCons(boxes[0], mid);
      assert boxes[..|boxes| - 1] == [boxes[0]] + mid && boxes[1..][..|boxes| - 2] == mid;
      Associative(Record(boxes[0], false), Unflagged(mid), Record(last, true));
    }
  }

  lemma TailOfPrefix<T>(s: seq<T>, i: nat)
    requires 0 < i <= |s|
    ensures s[..i][1..] == s[1..][..i - 1]
  {
  }

  lemma {:induction false} LiveBoxesSnoc(boxes: seq<Box>, free: seq<bool>, i: nat)
    requires |boxes| == |free| && i < |boxes|
    ensures LiveBoxes(boxes[..i + 1], free[..i + 1]) ==
            LiveBoxes(boxes[..i], free[..i]) + if free[i] then [] else [boxes[i]]
  {
    TailOfPrefix(boxes, i + 1);
    TailOfPrefix(free, i + 1);
    if i > 0 {
      LiveBoxesSnoc(boxes[1..], free[1..], i - 1);
      TailOfPrefix(boxes, i);
      TailOfPrefix(free, i);
    }
  }

  lemma {:induction false} LiveBoxesPrefix(boxes: seq<Box>, free: seq<bool>, i: nat)
    requires |boxes| == |free| && i <= |boxes|
    ensures LiveBoxes(boxes[..i], free[..i]) <= LiveBoxes(boxes, free)
    decreases |boxes| - i
  {
    if i < |boxes| {
      LiveBoxesSnoc(boxes, free, i);
      LiveBoxesPrefix(boxes, free, i + 1);
    } else {
      assert boxes[..i] == boxes && free[..i] == free;
    }
  }

  /** What has been written once `count` of the records of `all` are out. */
  function Written(all: seq<Box>, count: nat): seq<byte>
    requires count <= |all| && forall i :: 0 <= i < |all| ==> |all[i].name| <= BOX_NAME_LENGTH
  {
    if count == |all| then Stream(all) else Unflagged(all[..count])
  }

  lemma WrittenStep(all: seq<Box>, count: nat)
    requires count < |all| && forall i :: 0 <= i < |all| ==> |all[i].name| <= BOX_NAME_LENGTH
    ensures Written(all, count + 1) == Written(all, count) + Record(all[count], count + 1 == |all|)
  {
    hide Record;
    if count + 1 < |all| {
      assert all[..count + 1][..count] == all[..count];
    }
  }

  /** One slot on: either nothing to write, or the next live box. */
  lemma SlotStep(boxes: seq<Box>, free: seq<bool>, i: nat)
    requires |boxes| == |free| && i < |boxes|
    ensures var all, count := LiveBoxes(boxes, free), |LiveBoxes(boxes[..i], free[..i])|;
      if free[i] then |LiveBoxes(boxes[..i + 1], free[..i + 1])| == count
      else
        && |LiveBoxes(boxes[..i + 1], free[..i + 1])| == count + 1
        && count < |all| && all[count] == boxes[i]
  {
    hide LiveBoxes;
    LiveBoxesSnoc(boxes, free, i);
    LiveBoxesPrefix(boxes, free, i + 1);
  }

  /** What has been written once `i` slots are done. */
  ghost function WrittenAfter(boxes: seq<Box>, free: seq<bool>, i: nat): seq<byte>
    requires |boxes| == |free| && i <= |boxes|
    requires forall k :: 0 <= k < |boxes| ==> |boxes[k].name| <= BOX_NAME_LENGTH
  {
    LiveBoxesPrefix(boxes, free, i);
    if LiveBoxes(boxes, free) == [] then ShortStream(boxes[..i])
    else Written(LiveBoxes(boxes, free), |LiveBoxes(boxes[..i], free[..i])|)
  }

  /** One slot on: what is added, and how many live boxes that makes. */
  lemma WrittenAfterStep(boxes: seq<Box>, free: seq<bool>, i: nat)
    requires |boxes| == |free| && i < |boxes|
    requires forall k :: 0 <= k < |boxes| ==> |boxes[k].name| <= BOX_NAME_LENGTH
    ensures var all := LiveBoxes(boxes, free); var count := |LiveBoxes(boxes[..i], free[..i])|;
      && |LiveBoxes(boxes[..i + 1], free[..i + 1])| == count + (if free[i] then 0 else 1)
      && WrittenAfter(boxes, free, i + 1) == WrittenAfter(boxes, free, i) +
         if all == [] then ShortRecord(boxes[i])
         else if free[i] then []
         else Record(boxes[i], count + 1 == |all|)
  {
    hide Record, ShortRecord, LiveBoxes, Written;
    SlotStep(boxes, free, i);
    var all := LiveBoxes(boxes, free);
    if all == [] {
      assert boxes[..i + 1][..i] == boxes[..i];
    } else if !free[i] {
      WrittenStep(all, |LiveBoxes(boxes[..i], free[..i])|);
    } else {
      assert WrittenAfter(boxes, free, i) + [] == WrittenAfter(boxes, free, i);
    }
  }

  lemma WrittenAtEnds(boxes: seq<Box>, free: seq<bool>)
    requires |boxes| == |free| && forall k :: 0 <= k < |boxes| ==> |boxes[k].name| <= BOX_NAME_LENGTH
    ensures WrittenAfter(boxes, free, 0) == [] && |LiveBoxes(boxes[..0], free[..0])| == 0
    ensures WrittenAfter(boxes, free, |boxes|) == Reply(boxes, free)
  {
    hide Record, ShortRecord;
    assert boxes[..|boxes|] == boxes && free[..|free|] == free;
    assert LiveBoxes(boxes, free)[..0] == [];
  }

  /**
   * The loop of `handle_tfs_list_boxes`: skips free slots if there are boxes, and raises the
   * flag when the records written reach `num_boxes`. With a counter that is right it writes
   * exactly the live boxes, in slot order, the flag on the final one only.
   */
  method WriteBoxes(boxes: array<Box>, free: array<bool>, numBoxes: int) returns (out: seq<byte>)
    requires boxes.Length == free.Length
    requires forall i :: 0 <= i < boxes.Length ==> |boxes[i].name| <= BOX_NAME_LENGTH
    requires numBoxes == |LiveBoxes(boxes[..], free[..])|
    ensures out == Reply(boxes[..], free[..])
  {
    hide Record, ShortRecord, LiveBoxes, Reply, WrittenAfter;
    ghost var bs, fs := boxes[..], free[..];
    var last, count, i := numBoxes == 0, 0, 0;
    out := [];
    WrittenAtEnds(bs, fs);
    while i < boxes.Length
      invariant 0 <= i <= boxes.Length
      invariant numBoxes == 0 ==> last && count >= 0
      invariant numBoxes != 0 ==> count == |LiveBoxes(bs[..i], fs[..i])| && (last <==> count == numBoxes)
      invariant out == WrittenAfter(bs, fs, i)
    {
      WrittenAfterStep(bs, fs, i);
      SlotStep(bs, fs, i);
      if !(free[i] && numBoxes != 0) {
        count := count + 1;
        if count == numBoxes {
          last := true;
        }
        out := out + if numBoxes != 0 then Record(boxes[i], last) else ShortRecord(boxes[i]);
      }
      i := i + 1;
    }
  }

  // ---- the manager ----

  /** `Overrun`: more records than the 64 the manager has room for. */
  datatype Listing = Listed(boxes: seq<Box>) | NoBoxes | Failed | Overrun

  function BoxIn(r: seq<byte>): Box
    requires |r| >= RECORD_LENGTH
  {
    Box(CStr(r[2..33]), UnLE(r[33..41]), UnLE(r[41..49]), UnLE(r[49..57]))
  }

  /** The listing with some more records in front; an error stays as it is. */
  function After(boxes: seq<Box>, l: Listing): Listing {
    match l
    case Listed(more) => Listed(boxes + more)
    case bad => bad
  }

  /** What `list_boxes` makes of the rest of the stream after `count` records. */
  function ReadFrom(stream: seq<byte>, count: nat): Listing
    decreases |stream|
  {
    if count >= MAX_BOXES then Overrun
    else if stream == [] || stream[0] != LIST_BOXES_ANSWER || |stream| < 33 then Failed
    else if stream[2] == 0 then NoBoxes
    else if |stream| < RECORD_LENGTH then Failed
    else if stream[1] != 0 then Listed([BoxIn(stream)])
    else
      After([BoxIn(stream)], ReadFrom(stream[RECORD_LENGTH..], count + 1))
  }

  lemma ReadFromStep(stream: seq<byte>, before: seq<Box>)
    requires |stream| >= RECORD_LENGTH && |before| < MAX_BOXES
    requires stream[0] == LIST_BOXES_ANSWER && stream[2] != 0
    ensures After(before, ReadFrom(stream, |before|)) ==
      if stream[1] != 0 then Listed(before + [BoxIn(stream)])
      else After(before + [BoxIn(stream)], ReadFrom(stream[RECORD_LENGTH..], |before| + 1))
  {
    hide BoxIn;
    var tail := ReadFrom(stream[RECORD_LENGTH..], |before| + 1);
    assert tail.Listed? ==> before + ([BoxIn(stream)] + tail.boxes) == (before + [BoxIn(stream)]) + tail.boxes;
  }

  lemma ReadFromStops(stream: seq<byte>, before: seq<Box>)
    ensures var r := After(before, ReadFrom(stream, |before|));
      if |before| >= MAX_BOXES then r == Overrun
      else if stream == [] || stream[0] != LIST_BOXES_ANSWER || |stream| < 33 then r == Failed
      else if stream[2] == 0 then r == NoBoxes
      else |stream| < RECORD_LENGTH ==> r == Failed
  {
    hide BoxIn;
  }

  /** The loop of `list_boxes`: reads records into its array until one is flagged. */
  method ListBoxes(stream: seq<byte>) returns (r: Listing)
    ensures r == ReadFrom(stream, 0)
  {
    hide ReadFrom, BoxIn;
    var boxes: seq<Box> := [];
    var rest := stream;
    var last := false;
    AfterNone(ReadFrom(stream, 0));
    while !last
      invariant |boxes| <= MAX_BOXES
      invariant ReadFrom(stream, 0) == if last then Listed(boxes) else After(boxes, ReadFrom(rest, |boxes|))
      decreases !last, |rest|
    {
      hide After;
      ReadFromStops(rest, boxes);
      if |boxes| >= MAX_BOXES {
        return Overrun;
      }
      if rest == [] || rest[0] != LIST_BOXES_ANSWER || |rest| < 33 {
        return Failed;
      }
      if rest[2] == 0 {
        return NoBoxes;
      }
      if |rest| < RECORD_LENGTH {
        return Failed;
      }
      ReadFromStep(rest, boxes);
      last := rest[1] != 0;
      boxes := boxes + [BoxIn(rest)];
      rest := rest[RECORD_LENGTH..];
    }
    r := Listed(boxes);
  }

  lemma AfterNone(l: Listing)
    ensures After([], l) == l
  {
    assert l.Listed? ==> [] + l.boxes == l.boxes;
  }

  // ---- round trip ----

  lemma RecordRoundTrip(b: Box, last: bool, rest: seq<byte>)
    requires BoxOk(b)
    ensures var s := Record(b, last) + rest;
      BoxIn(s) == b && s[0] == LIST_BOXES_ANSWER && s[1] == Flag(last) && s[2] != 0 && s[RECORD_LENGTH..] == rest
  {
    hide LE, UnLE, CStr;
    var s := Record(b, last) + rest;
    assert s[2..33] == NameField(b.name);
    assert s[33..41] == LE(b.size, 8);
    assert s[41..49] == LE(b.publishers, 8);
    assert s[49..57] == LE(b.subscribers, 8);
    Widths();
    LERoundTrip(b.size, 8);
    LERoundTrip(b.publishers, 8);
    LERoundTrip(b.subscribers, 8);
    NameRoundTrip(b.name);
  }

  lemma NameRoundTrip(name: seq<byte>)
    requires |name| <= BOX_NAME_LENGTH && NulFree(name)
    ensures CStr(NameField(name)) == name
  {
    if |name| < BOX_NAME_LENGTH {
      assert NameField(name) == name + [0] + Zeros(BOX_NAME_LENGTH - |name| - 1);
      CStrOf(name, Zeros(BOX_NAME_LENGTH - |name| - 1));
    } else {
      assert NameField(name) == name;
      CStrWhole(name);
    }
  }

  /** Records that are not flagged are read one by one, as long as there is room for them. */
  lemma {:induction false} ReadsUnflagged(boxes: seq<Box>, rest: seq<byte>, count: nat)
    requires count + |boxes| <= MAX_BOXES
    requires forall i :: 0 <= i < |boxes| ==> |boxes[i].name| <= BOX_NAME_LENGTH && BoxOk(boxes[i])
    ensures ReadFrom(Unflagged(boxes) + rest, count) == After(boxes, ReadFrom(rest, count + |boxes|))
  {
    hide Record, BoxIn, ReadFrom;
    if boxes == [] {
      assert Unflagged(boxes) + rest == rest;
      AfterNone(ReadFrom(rest, count));
    } else {
      var front, last := boxes[..|boxes| - 1], boxes[|boxes| - 1];
      Associative(Unflagged(front), Record(last, false), rest);
      ReadsUnflagged(front, Record(last, false) + rest, count);
      OneUnflagged(last, rest, count + |front|);
      AfterTwice(front, [last], ReadFrom(rest, count + |boxes|));
      assert front + [last] == boxes;
    }
  }

  lemma OneUnflagged(b: Box, rest: seq<byte>, count: nat)
    requires count < MAX_BOXES && BoxOk(b)
    ensures ReadFrom(Record(b, false) + rest, count) == After([b], ReadFrom(rest, count + 1))
  {
    hide Record, BoxIn;
    RecordRoundTrip(b, false, rest);
  }

  lemma AfterTwice(a: seq<Box>, b: seq<Box>, l: Listing)
    ensures After(a, After(b, l)) == After(a + b, l)
  {
    assert l.Listed? ==> a + (b + l.boxes) == (a + b) + l.boxes;
  }

  /**
   * What ends the reader's loop other than a flagged record: behind any unflagged records, the
   * 65th record, a wrong opcode, a record cut short, or an empty name.
   */
  lemma ReaderRefuses(boxes: seq<Box>, rest: seq<byte>)
    requires |boxes| <= MAX_BOXES
    requires forall i :: 0 <= i < |boxes| ==> |boxes[i].name| <= BOX_NAME_LENGTH && BoxOk(boxes[i])
    ensures var l := ReadFrom(Unflagged(boxes) + rest, 0); var full := |boxes| == MAX_BOXES;
      var head := 2 + BOX_NAME_LENGTH;
      && (full ==> l == Overrun)
      && (!full && (|rest| < head || rest[0] != LIST_BOXES_ANSWER) ==> l == Failed)
      && (!full && |rest| >= head && rest[0] == LIST_BOXES_ANSWER && rest[2] == 0 ==> l == NoBoxes)
      && (!full && head <= |rest| < RECORD_LENGTH && rest[0] == LIST_BOXES_ANSWER && rest[2] != 0 ==> l == Failed)
  {
    hide BoxIn, Unflagged;
    ReadsUnflagged(boxes, rest, 0);
  }

  lemma {:induction false} StreamRoundTrip(boxes: seq<Box>, count: nat)
    requires boxes != [] && count + |boxes| <= MAX_BOXES
    requires forall i :: 0 <= i < |boxes| ==> |boxes[i].name| <= BOX_NAME_LENGTH && BoxOk(boxes[i])
    ensures ReadFrom(Stream(boxes), count) == Listed(boxes)
  {
    hide Record, Stream, BoxIn;
    StreamCons(boxes);
    RecordRoundTrip(boxes[0], |boxes| == 1, Stream(boxes[1..]));
    if |boxes| > 1 {
      StreamRoundTrip(boxes[1..], count + 1);
      assert [boxes[0]] + boxes[1..] == boxes;
    } else {
      assert [boxes[0]] == boxes;
    }
  }

  lemma {:induction false} LiveCount(boxes: seq<Box>, free: seq<bool>)
    requires |boxes| == |free|
    ensures |LiveBoxes(boxes, free)| == |TakenSet(Used(free))|
  {
    if boxes == [] {
      assert TakenSet(Used(free)) == {};
    } else {
      LiveCount(boxes[1..], free[1..]);
      ShiftedSlots(free);
    }
  }

  lemma ShiftedSlots(free: seq<bool>)
    requires free != []
    ensures |TakenSet(Used(free))| == |TakenSet(Used(free[1..]))| + if free[0] then 0 else 1
  {
    var rest := TakenSet(Used(free)) - {0};
    SameSize(free, rest);
    if free[0] {
      assert TakenSet(Used(free)) == rest;
    } else {
      assert TakenSet(Used(free)) == rest + {0};
    }
  }

  lemma SameSize(free: seq<bool>, rest: set<int>)
    requires free != [] && rest == TakenSet(Used(free)) - {0}
    ensures |rest| == |TakenSet(Used(free[1..]))|
  {
    var back := map i | i in rest :: i - 1;
    forall j | j in TakenSet(Used(free[1..])) ensures j in back.Values {
      assert j + 1 in back;
    }
    assert back.Keys == rest && back.Values == TakenSet(Used(free[1..]));
    Counting.InjectiveSize(back);
  }

  lemma {:induction false} ShortStreamStart(boxes: seq<Box>)
    requires boxes != [] && forall i :: 0 <= i < |boxes| ==> |boxes[i].name| <= BOX_NAME_LENGTH
    ensures ShortRecord(boxes[0]) <= ShortStream(boxes)
  {
    hide ShortRecord;
    var front := boxes[..|boxes| - 1];
    if front == [] {
      assert ShortStream(front) + ShortRecord(boxes[0]) == ShortRecord(boxes[0]);
    } else {
      ShortStreamStart(front);
    }
  }

  lemma {:induction false} NobodyLive(boxes: seq<Box>, free: seq<bool>)
    requires |boxes| == |free| && LiveBoxes(boxes, free) == []
    ensures forall i :: 0 <= i < |free| ==> free[i]
  {
    if boxes != [] {
      NobodyLive(boxes[1..], free[1..]);
      forall i | 0 <= i < |free| ensures free[i] {
        assert i > 0 ==> free[i] == free[1..][i - 1];
      }
    }
  }

  /**
   * Any registry comes through the reply. From the records of its live boxes the manager's loop
   * stops after exactly `num_boxes` of them, with the same names and counters in slot order; with
   * no boxes it stops at the first record and reports none.
   */
  lemma ListRoundTrip(t: Table)
    requires TableOk(t)
    requires forall i :: 0 <= i < MAX_BOXES && !t.free[i] ==> BoxOk(t.boxes[i])
    requires forall i :: 0 <= i < MAX_BOXES ==> |t.boxes[i].name| <= BOX_NAME_LENGTH
    ensures var live := LiveBoxes(t.boxes, t.free);
      |live| == t.count && ReadFrom(Reply(t.boxes, t.free), 0) == if t.count == 0 then NoBoxes else Listed(live)
  {
    LiveCount(t.boxes, t.free);
    if t.count > 0 {
      LiveAreOk(t.boxes, t.free);
      StreamRoundTrip(LiveBoxes(t.boxes, t.free), 0);
    } else {
      NobodyLive(t.boxes, t.free);
      ShortStreamStart(t.boxes);
      assert ShortRecord(t.boxes[0])[2] == 0;
    }
  }

  lemma {:induction false} LiveAreOk(boxes: seq<Box>, free: seq<bool>)
    requires |boxes| == |free| && forall i :: 0 <= i < |boxes| && !free[i] ==> BoxOk(boxes[i])
    ensures forall i :: 0 <= i < |LiveBoxes(boxes, free)| ==> BoxOk(LiveBoxes(boxes, free)[i])
  {
    if boxes != [] {
      LiveAreOk(boxes[1..], free[1..]);
    }
  }
}
