/** Which client each accepted message comes from, in which order, over every run. */
module BoxAuthors {
  import opened Bytes
  import opened TfsState
  import opened AbstractFs
  import opened Messages
  import opened BoxProtocol

  /** The messages publisher `i`'s client sent in a run, in order. */
  function ReceivedBy(actions: seq<Action>, i: nat): seq<seq<byte>> {
    if actions == [] then [] else
    var last := actions[|actions| - 1];
    ReceivedBy(actions[..|actions| - 1], i) + if last.PubReceive? && last.i == i then [last.m] else []
  }

  /** The accepted messages that publisher `i` wrote, in order. */
  function AcceptedFrom(accepted: seq<seq<byte>>, authors: seq<nat>, i: nat): seq<seq<byte>>
    requires |authors| == |accepted|
  {
    if accepted == [] then [] else
    var n := |accepted| - 1;
    AcceptedFrom(accepted[..n], authors[..n], i) + if authors[n] == i then [accepted[n]] else []
  }

  /** The message a publisher has received and not yet counted. */
  function InHand(pub: Pub): seq<seq<byte>> {
    match pub
    case HasMessage(m) => [m]
    case Locked(m) => [m]
    case Opened(m, _) => [m]
    case Wrote(m) => [m]
    case Full(m, _) => [m]
    case _ => []
  }

  lemma AcceptedFromSnoc(accepted: seq<seq<byte>>, authors: seq<nat>, m: seq<byte>, who: nat, i: nat)
    requires |authors| == |accepted|
    ensures AcceptedFrom(accepted + [m], authors + [who], i) ==
            AcceptedFrom(accepted, authors, i) + if who == i then [m] else []
  {
    assert (accepted + [m])[..|accepted|] == accepted && (authors + [who])[..|authors|] == authors;
  }

  lemma SubStepLeavesPubs(s: Sys, j: nat)
    requires s.p.Ok() && SubEnabled(s, j)
    ensures var t := SubNext(s, j); t.accepted == s.accepted && t.authors == s.authors && t.pubs == s.pubs
  {
    hide AbsStep, Split;
  }

  /** Steps that are not a publisher's own: at most a publisher at its pipe gets a message or leaves. */
  lemma OthersKeepAuthors(s: Sys, a: Action, i: nat)
    requires s.p.Ok() && Enabled(s, a) && !a.PubStep? && i < |s.pubs|
    ensures var t := Next(s, a);
      && t.accepted == s.accepted && t.authors == s.authors && |t.pubs| == |s.pubs|
      && InHand(t.pubs[i]) == InHand(s.pubs[i]) + (if a.PubReceive? && a.i == i then [a.m] else [])
      && (t.pubs[i] == Pub.Crashed <==> s.pubs[i] == Pub.Crashed)
      && (a.PubReceive? && a.i == i ==> t.pubs[i] != Pub.Crashed)
  {
    hide DoCall, AbsStep, SubNext, IsForeign;
    if a.SubStep? {
      SubStepLeavesPubs(s, a.i);
    }
  }

  /** A publisher's step: its message stays in hand, or is accepted in its name, or is lost with the worker. */
  lemma PubStepAuthors(s: Sys, k: nat, i: nat)
    requires s.p.Ok() && PubEnabled(s, k) && |s.authors| == |s.accepted| && i < |s.pubs|
    ensures var t := PubNext(s, k);
      && |t.pubs| == |s.pubs| && (k != i ==> t.pubs[i] == s.pubs[i])
      && (if s.pubs[k].Wrote? then t.accepted == s.accepted + [s.pubs[k].m] && t.authors == s.authors + [k]
          else t.accepted == s.accepted && t.authors == s.authors)
      && (s.pubs[k].Wrote? ==> InHand(s.pubs[k]) == [s.pubs[k].m] && t.pubs[k] == Resized && InHand(Resized) == [])
      && (!s.pubs[k].Wrote? && t.pubs[k] != Pub.Crashed ==> InHand(t.pubs[k]) == InHand(s.pubs[k]))
      && (t.pubs[k] == Pub.Crashed ==> |InHand(s.pubs[k])| == 1 && InHand(t.pubs[k]) == [])
      && s.pubs[k] != Pub.Crashed
  {
    hide DoCall, AbsStep, WakeAll;
  }

  /** One step: a message received is in hand; one counted has an author; one is lost only with its worker. */
  lemma StepKeepsAuthors(s: Sys, a: Action, i: nat)
    requires s.p.Ok() && Enabled(s, a) && |s.authors| == |s.accepted| && i < |s.pubs|
    ensures var t := Next(s, a);
      && |t.authors| == |t.accepted| && |t.pubs| == |s.pubs|
      && var before := AcceptedFrom(s.accepted, s.authors, i) + InHand(s.pubs[i]);
      && var after := AcceptedFrom(t.accepted, t.authors, i) + InHand(t.pubs[i]);
      && (s.pubs[i] == Pub.Crashed ==> t.pubs[i] == Pub.Crashed && after == before)
      && (s.pubs[i] != Pub.Crashed && t.pubs[i] != Pub.Crashed ==>
            after == before + if a.PubReceive? && a.i == i then [a.m] else [])
      && (s.pubs[i] != Pub.Crashed && t.pubs[i] == Pub.Crashed ==> after < before && |after| + 1 == |before|)
      && (t.pubs[i] == Pub.Crashed ==> !(a.PubReceive? && a.i == i))
  {
    hide PubNext, Next, AcceptedFrom, InHand, PubEnabled;
    var mine, hand := AcceptedFrom(s.accepted, s.authors, i), InHand(s.pubs[i]);
    assert (mine + hand) + [] == mine + hand;
    if a.PubStep? {
      IsPubStep(s, a);
      PubStepAuthors(s, a.i, i);
      if s.pubs[a.i].Wrote? {
        AcceptedFromSnoc(s.accepted, s.authors, s.pubs[a.i].m, a.i, i);
        assert (mine + [s.pubs[a.i].m]) + [] == mine + [s.pubs[a.i].m];
        assert mine + [] == mine;
      }
    } else {
      OthersKeepAuthors(s, a, i);
      assert a.PubReceive? ==> mine + (hand + [a.m]) == (mine + hand) + [a.m];
      assert hand + [] == hand;
    }
  }

  lemma IsPubStep(s: Sys, a: Action)
    requires s.p.Ok() && Enabled(s, a) && a.PubStep?
    ensures PubEnabled(s, a.i) && a.i < |s.pubs| && Next(s, a) == PubNext(s, a.i)
  {
    hide PubNext;
  }

  /**
   * In every run, and for every publisher: its accepted messages, and the one in hand if any,
   * are the messages its client sent, in that order, none lost and none twice; only a worker
   * that met a fatal error has lost the last one.
   */
  lemma {:induction false} AcceptedAsSent(s0: Sys, actions: seq<Action>, s: Sys, i: nat)
    requires Initial(s0) && IsRun(s0, actions, s) && i < |s0.pubs|
    ensures |s.authors| == |s.accepted| && |s.pubs| == |s0.pubs|
    ensures var mine := AcceptedFrom(s.accepted, s.authors, i) + InHand(s.pubs[i]); var sent := ReceivedBy(actions, i);
      mine <= sent && |sent| == |mine| + if s.pubs[i] == Pub.Crashed then 1 else 0
    decreases |actions|
  {
    hide Next, Enabled, AcceptedFrom, InHand;
    if actions == [] {
      NothingSent(s0, i);
    } else {
      var front, last := actions[..|actions| - 1], actions[|actions| - 1];
      var mid :| IsRun(s0, front, mid) && mid.p.Ok() && Enabled(mid, last) && s == Next(mid, last);
      AcceptedAsSent(s0, front, mid, i);
      StepKeepsAuthors(mid, last, i);
    }
  }

  lemma NothingSent(s0: Sys, i: nat)
    requires Initial(s0) && i < |s0.pubs|
    ensures |s0.authors| == |s0.accepted| && AcceptedFrom(s0.accepted, s0.authors, i) + InHand(s0.pubs[i]) == []
    ensures s0.pubs[i] != Pub.Crashed
  {
  }

  // ---- sessions that are over ----

  predicate PubOver(pub: Pub) {
    pub.Closed? || pub.Full? || pub == Pub.Crashed
  }

  predicate SubOver(u: Sub) {
    u.pc.Ended? || u.pc.Crashed?
  }

  /** A publisher whose client closed the pipe, and a subscriber that left, are over. */
  lemma LeavingEnds(s: Sys, a: Action)
    requires s.p.Ok() && Enabled(s, a)
    ensures a.PubClose? ==> Next(s, a).pubs[a.i] == Closed
    ensures a.SubLeave? ==> Next(s, a).subs[a.i].pc == Ended(false)
  {
  }

  lemma PubOverStays(s: Sys, a: Action, i: nat)
    requires s.p.Ok() && Enabled(s, a)
    ensures var t := Next(s, a);
      && |t.pubs| == |s.pubs|
      && (i < |s.pubs| && PubOver(s.pubs[i]) ==> t.pubs[i] == s.pubs[i] && !(a.PubReceive? && a.i == i))
  {
    hide DoCall, AbsStep, WakeAll, SubNext, IsForeign;
    if a.SubStep? {
      SubStepLeavesPubs(s, a.i);
    }
  }

  lemma PubStepOnlyWakes(s: Sys, k: nat)
    requires s.p.Ok() && PubEnabled(s, k)
    ensures PubNext(s, k).subs == s.subs || PubNext(s, k).subs == WakeAll(s.subs)
  {
    hide AbsStep, WakeAll;
  }

  lemma SubStepMovesNoOther(s: Sys, j: nat, i: nat)
    requires s.p.Ok() && SubEnabled(s, j)
    ensures var t := SubNext(s, j);
      |t.subs| == |s.subs| && (i < |s.subs| && i != j ==> t.subs[i] == s.subs[i])
  {
    hide DoCall, AbsStep, Unread, Split;
  }

  lemma SubOverStays(s: Sys, a: Action, i: nat)
    requires s.p.Ok() && Enabled(s, a)
    ensures var t := Next(s, a);
      && |t.subs| == |s.subs|
      && (i < |s.subs| && SubOver(s.subs[i]) ==> t.subs[i] == s.subs[i])
  {
    hide DoCall, AbsStep, PubNext, SubNext, PubEnabled, IsForeign, Split;
    if a.PubStep? {
      PubStepOnlyWakes(s, a.i);
    }
    if a.SubStep? {
      SubStepMovesNoOther(s, a.i, i);
    }
  }

  /** A session that is over never does anything again: no publisher receives, no subscriber reads. */
  lemma {:induction false} OverForever(s: Sys, actions: seq<Action>, t: Sys, i: nat)
    requires IsRun(s, actions, t)
    ensures |t.pubs| == |s.pubs| && |t.subs| == |s.subs|
    ensures i < |s.pubs| && PubOver(s.pubs[i]) ==> t.pubs[i] == s.pubs[i] && ReceivedBy(actions, i) == []
    ensures i < |s.subs| && SubOver(s.subs[i]) ==> t.subs[i] == s.subs[i]
    decreases |actions|
  {
    hide Next, Enabled, PubOver, SubOver;
    if actions != [] {
      var front, last := actions[..|actions| - 1], actions[|actions| - 1];
      var mid :| IsRun(s, front, mid) && mid.p.Ok() && Enabled(mid, last) && t == Next(mid, last);
      OverForever(s, front, mid, i);
      PubOverStays(mid, last, i);
      SubOverStays(mid, last, i);
    }
  }
}
