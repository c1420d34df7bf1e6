/** What a sender writes and reports over a whole run, against any peer. */
module SenderRuns {
  import opened Bytes
  import opened Header
  import opened Payloads
  import opened Framing
  import opened Sending
  import opened SessionInvariant

  /** Everything that the sender hands to the socket in a run. */
  function WireOf(s: Sender, events: seq<Event>): Text
    requires Sane(s) && Feasible(s, events)
    decreases |events|
  {
    if events == [] then [] else
    StepSane(s, events[0]);
    var o := Step(s, events[0]);
    o.out + WireOf(o.sender, events[1..])
  }

  lemma {:induction false} WireSplits(s: Sender, front: seq<Event>, back: seq<Event>)
    requires Sane(s) && Feasible(s, front + back)
    ensures Feasible(s, front) && Sane(RunOf(s, front)) && Feasible(RunOf(s, front), back)
    ensures WireOf(s, front + back) == WireOf(s, front) + WireOf(RunOf(s, front), back)
    decreases |front|
  {
    hide Step, Ready, Sane;
    RunSplits(s, front, back);
    if front == [] {
      assert front + back == back;
    } else {
      assert (front + back)[1..] == front[1..] + back;
      StepSane(s, front[0]);
      WireSplits(Step(s, front[0]).sender, front[1..], back);
    }
  }

  /** The last callback of a run. */
  lemma LastEvent(j: Job, events: seq<Event>)
    requires Feasible(Initial(j), events) && events != []
    ensures Feasible(Initial(j), events[..|events| - 1])
    ensures var before, e := RunOf(Initial(j), events[..|events| - 1]), events[|events| - 1];
            && Sane(before) && Ready(before, e) && before.job == j
            && RunOf(Initial(j), events) == Step(before, e).sender
            && WireOf(Initial(j), events) == WireOf(Initial(j), events[..|events| - 1]) + Step(before, e).out
  {
    hide Ready, Step, Sane;
    var n := |events| - 1;
    var s, front, e := Initial(j), events[..n], events[n];
    assert front + [e] == events;
    RunSplits(s, front, [e]);
    WireSplits(s, front, [e]);
    RunCounts(s, front, []);
    OneEvent(RunOf(s, front), e);
    var o := Step(RunOf(s, front), e);
    StepSane(RunOf(s, front), e);
    assert WireOf(o.sender, []) == [];
    assert [e][1..] == [];
    assert WireOf(RunOf(s, front), [e]) == o.out + [] == o.out;
  }

  // ------------------------------------------------------------------ what is written

  /** The connection and the handshake have both succeeded. */
  predicate Opened(events: seq<Event>) {
    |events| >= 2 && events[0] == Connected(true) && events[1] == Shaken(true)
  }

  /** Callback `k` completed the header of a message of this type. */
  predicate HeaderGot(events: seq<Event>, k: int, msgType: Byte) {
    && 0 <= k < |events| && events[k].Got? && |events[k].data| == HEADER_SIZE
    && ParseHeader(events[k].data).Some? && ParseHeader(events[k].data).value.msgType == msgType
  }

  /** The first reply is an accept, and a payload that it announces has been waited for. */
  predicate Admitted(events: seq<Event>) {
    && Opened(events) && HeaderGot(events, 2, 0x11)
    && (ParseHeader(events[2].data).value.payloadLen > 0 ==> |events| >= 4)
  }

  /** How far the callbacks have brought the sender. */
  predicate Reached(j: Job, p: Sender, events: seq<Event>, wire: Text) {
    var n, offer := |events|, FrameBytes(OfferFrame(j));
    p.position <= |j.content| &&
    match p.phase
    case Connecting => n == 0 && wire == [] && p.position == 0
    case Handshaking => n == 1 && events[0] == Connected(true) && wire == [] && p.position == 0
    case AwaitReply => n == 2 && Opened(events) && wire == offer && p.position == 0
    case AwaitNoise(len) =>
      && n == 3 && Opened(events) && HeaderGot(events, 2, 0x11) && ParseHeader(events[2].data).value.payloadLen > 0
      && wire == offer && p.position == 0
    case AwaitReason(_) => n == 3 && Opened(events) && HeaderGot(events, 2, 0x12) && wire == offer && p.position == 0
    case Writing(_) =>
      Admitted(events) && offer <= wire && |wire| > |offer| && wire + Rest(j, p.position) == Script(j)
    case AwaitAck => Admitted(events) && |wire| > |offer| && wire == Script(j) && p.position == |j.content|
    case AwaitAckPayload(_) =>
      && Admitted(events) && |wire| > |offer| && wire == Script(j) && p.position == |j.content|
      && HeaderGot(events, n - 1, 0x14)
    case Finished => Wrote(j, events, wire) && Follows(j, wire, p.position)
  }

  /** Nothing before the handshake, the offer after it, and more than the offer once admitted. */
  predicate Wrote(j: Job, events: seq<Event>, wire: Text) {
    var offer := FrameBytes(OfferFrame(j));
    && (wire != [] <==> Opened(events))
    && (wire != [] ==> offer <= wire)
    && (|wire| > |offer| <==> Admitted(events))
  }

  lemma ReachedWrote(j: Job, p: Sender, events: seq<Event>, wire: Text)
    requires Reached(j, p, events, wire)
    ensures p.position <= |j.content| && Wrote(j, events, wire) && Follows(j, wire, p.position)
  {
    hide FrameBytes, Rest, ParseHeader, OfferFrame;
    AfterOfferComesRest(j);
  }

  lemma AfterOfferComesRest(j: Job)
    ensures FrameBytes(OfferFrame(j)) + Rest(j, 0) == Script(j)
    ensures |FrameBytes(OfferFrame(j))| < |Script(j)| && FrameBytes(OfferFrame(j)) <= Script(j)
    ensures FrameBytes(OfferFrame(j)) != []
  {
    hide OfferFrame, Rest;
  }

  /** A longer run has opened and been admitted if a shorter one has. */
  lemma Longer(events: seq<Event>, e: Event)
    ensures |events| >= 2 ==> (Opened(events + [e]) <==> Opened(events))
    ensures Admitted(events) ==> Admitted(events + [e])
    ensures |events| >= 4 ==> (Admitted(events + [e]) <==> Admitted(events))
  {
    hide ParseHeader;
  }

  /** The data phase begins, or goes on, with the next piece of the script. */
  lemma NextPiece(j: Job, p: Sender, events: seq<Event>, wire: Text)
    requires p.job == j && Sane(p) && Admitted(events)
    requires FrameBytes(OfferFrame(j)) <= wire && wire + Rest(j, p.position) == Script(j)
    ensures var o := NextChunk(p);
            Reached(j, o.sender, events, wire + o.out)
  {
    hide FrameBytes, ParseHeader, OfferFrame, Admitted;
    FrameIsNotEmpty(NextFrame(j, p.position));
    if p.position < |j.content| {
      var f, rest := FrameBytes(ChunkFrame(j, p.position)), Rest(j, p.position + ChunkLength(j, p.position));
      assert wire + (f + rest) == (wire + f) + rest;
    }
  }

  lemma FrameIsNotEmpty(f: Frame)
    ensures |FrameBytes(f)| > 0
  {
  }

  lemma ReachedStep(j: Job, p: Sender, events: seq<Event>, wire: Text, e: Event)
    requires p.job == j && Sane(p) && Ready(p, e) && Reached(j, p, events, wire)
    ensures Sane(Step(p, e).sender) && Reached(j, Step(p, e).sender, events + [e], wire + Step(p, e).out)
  {
    hide FrameBytes, Rest, ParseHeader, OfferFrame, NextChunk, Script, Follows;
    var all := events + [e];
    StepSane(p, e);
    ReachedWrote(j, p, events, wire);
    AfterOfferComesRest(j);
    Longer(events, e);
    var o := Step(p, e);
    assert wire + [] == wire;
    if e == Written(true) {
      NextPiece(j, p.(bytesSent := p.bytesSent + p.phase.size), all, wire);
    } else if p.phase.AwaitNoise? || (p.phase.AwaitReply? && Admitted(all)) {
      NextPiece(j, p, all, wire);
    }
  }

  lemma {:induction false} RunReaches(j: Job, events: seq<Event>)
    requires Feasible(Initial(j), events)
    ensures var p := RunOf(Initial(j), events);
            Sane(p) && p.job == j && Reached(j, p, events, WireOf(Initial(j), events))
    decreases |events|
  {
    hide Ready, Step, Feasible, Reached;
    RunCounts(Initial(j), events, []);
    if events == [] {
      NothingYet(j);
    } else {
      var n := |events| - 1;
      LastEvent(j, events);
      RunReaches(j, events[..n]);
      ReachedStep(j, RunOf(Initial(j), events[..n]), events[..n], WireOf(Initial(j), events[..n]), events[n]);
      assert events[..n] + [events[n]] == events;
    }
  }

  lemma NothingYet(j: Job)
    ensures Feasible(Initial(j), []) && RunOf(Initial(j), []) == Initial(j) && WireOf(Initial(j), []) == []
    ensures Reached(j, Initial(j), [], [])
  {
    hide FrameBytes, OfferFrame;
  }

  /** Against any peer a sender writes a beginning of its script: nothing unless the connection and the
      handshake have succeeded, then the offer, and more than the offer exactly after an accept. */
  lemma SenderWrites(j: Job, events: seq<Event>)
    requires Feasible(Initial(j), events)
    ensures var wire, offer := WireOf(Initial(j), events), FrameBytes(OfferFrame(j));
            && wire <= Script(j)
            && (wire != [] <==> Opened(events))
            && (wire != [] ==> offer <= wire)
            && (|wire| > |offer| <==> Admitted(events))
  {
    hide Feasible, RunOf, WireOf, FrameBytes, Rest, OfferFrame, Script, Reached, Opened, Admitted;
    RunReaches(j, events);
    ReachedWrote(j, RunOf(Initial(j), events), events, WireOf(Initial(j), events));
  }

  // ------------------------------------------------------------------ what is reported

  /** The callback says that something went wrong, and the sender takes notice. */
  predicate Failing(p: Sender, e: Event) {
    || e == Connected(false) || e == Shaken(false) || e == Written(false)
    || (e == ReadFailed && !p.phase.AwaitNoise?)
  }

  /** What the last callback makes of a transfer that has not reported yet. */
  lemma LastReport(p: Sender, e: Event)
    requires Sane(p) && Ready(p, e) && p.reports == []
    ensures var q := Step(p, e).sender;
            && (q.reports == [false] <==> Failing(p, e) || p.phase.AwaitReason?)
            && (q.reports == [true] <==> e.Got? && p.phase.AwaitAckPayload? && e.data != [] && e.data[0] != 0)
            && (q.reports != [] ==> q.phase.Finished?)
  {
    hide ParseHeader, FrameBytes, OfferFrame, ChunkFrame, DoneFrame;
    assert [true][0] != [false][0];
  }

  lemma NothingReportedBefore(j: Job, events: seq<Event>)
    requires Feasible(Initial(j), events) && events != []
    ensures Feasible(Initial(j), events[..|events| - 1])
    ensures RunOf(Initial(j), events[..|events| - 1]).reports == []
  {
    hide Ready, Step, Feasible, RunOf, WireOf;
    var front := events[..|events| - 1];
    LastEvent(j, events);
    RunCounts(Initial(j), front, []);
    NotOver(RunOf(Initial(j), front), events[|events| - 1]);
  }

  lemma TwoDone(j: Job, p: Sender, events: seq<Event>, wire: Text)
    requires Reached(j, p, events, wire) && |events| == 2 && !p.phase.Finished?
    ensures p.phase.AwaitReply?
  {
    hide ParseHeader, FrameBytes, OfferFrame, Rest, Script;
  }

  lemma ThreeDone(j: Job, p: Sender, events: seq<Event>, wire: Text)
    requires Reached(j, p, events, wire) && p.phase.AwaitReason?
    ensures |events| == 3 && Opened(events) && HeaderGot(events, 2, 0x12)
  {
    hide ParseHeader, FrameBytes, OfferFrame, Rest, Script;
  }

  lemma RejectReplyStep(p: Sender, events: seq<Event>, e: Event)
    requires Sane(p) && Ready(p, e) && p.phase.AwaitReply? && |events| == 2 && HeaderGot(events + [e], 2, 0x12)
    ensures Step(p, e).sender.phase.AwaitReason?
  {
    hide ParseHeader, NextChunk;
  }

  /** The sender waits for a reason exactly when the third callback brought the header of a reject. */
  lemma ReasonIff(j: Job, events: seq<Event>)
    requires Feasible(Initial(j), events)
    ensures RunOf(Initial(j), events).phase.AwaitReason? <==>
            |events| == 3 && Opened(events) && HeaderGot(events, 2, 0x12)
  {
    hide Ready, Step, Feasible, RunOf, WireOf, Reached, Opened, HeaderGot;
    RunReaches(j, events);
    if RunOf(Initial(j), events).phase.AwaitReason? {
      ThreeDone(j, RunOf(Initial(j), events), events, WireOf(Initial(j), events));
    } else if |events| == 3 && HeaderGot(events, 2, 0x12) {
      var front := events[..2];
      LastEvent(j, events);
      RunReaches(j, front);
      NotOver(RunOf(Initial(j), front), events[2]);
      TwoDone(j, RunOf(Initial(j), front), front, WireOf(Initial(j), front));
      assert front + [events[2]] == events;
      RejectReplyStep(RunOf(Initial(j), front), front, events[2]);
    }
  }

  /** A failure is reported exactly when the last callback was a failing one or ended a rejection. */
  lemma FailureIff(j: Job, events: seq<Event>)
    requires Feasible(Initial(j), events) && events != []
    ensures Feasible(Initial(j), events[..|events| - 1])
    ensures RunOf(Initial(j), events).reports == [false] <==>
            || Failing(RunOf(Initial(j), events[..|events| - 1]), events[|events| - 1])
            || (|events| == 4 && Opened(events) && HeaderGot(events, 2, 0x12))
  {
    hide Ready, Step, Feasible, RunOf, WireOf, Failing, Reached, ParseHeader;
    var n := |events| - 1;
    LastEvent(j, events);
    NothingReportedBefore(j, events);
    LastReport(RunOf(Initial(j), events[..n]), events[n]);
    ReasonIff(j, events[..n]);
  }

  lemma NothingAfterEnd(p: Sender, events: seq<Event>)
    requires p.phase.Finished? && Feasible(p, events)
    ensures events == []
  {
  }

  /** A failing callback, wherever it comes in a run, is the last one; the transfer is over and has
      reported a failure. */
  lemma FailureEnds(j: Job, events: seq<Event>, k: nat)
    requires Feasible(Initial(j), events) && k < |events|
    ensures Feasible(Initial(j), events[..k])
    ensures Failing(RunOf(Initial(j), events[..k]), events[k]) ==>
              k == |events| - 1 && RunOf(Initial(j), events).phase.Finished? && RunOf(Initial(j), events).reports == [false]
  {
    hide Ready, Step, Feasible, RunOf, WireOf, Failing;
    var s, front, back := Initial(j), events[..k + 1], events[k + 1..];
    assert front + back == events && front[..k] == events[..k];
    RunSplits(s, front, back);
    LastEvent(j, front);
    NothingReportedBefore(j, front);
    LastReport(RunOf(s, front[..k]), events[k]);
    if RunOf(s, front).phase.Finished? {
      NothingAfterEnd(RunOf(s, front), back);
    }
    if back == [] {
      assert front == events;
    }
  }

  lemma AckDone(j: Job, p: Sender, events: seq<Event>, wire: Text)
    requires Reached(j, p, events, wire) && p.phase.AwaitAckPayload?
    ensures HeaderGot(events, |events| - 1, 0x14) && wire == Script(j)
  {
    hide ParseHeader, FrameBytes, OfferFrame, Rest, Script;
  }

  lemma AckHeaderStep(p: Sender, events: seq<Event>, e: Event)
    requires Sane(p) && Ready(p, e) && p.phase.AwaitAck?
    ensures HeaderGot(events + [e], |events|, 0x14) <==> Step(p, e).sender.phase.AwaitAckPayload?
  {
    hide ParseHeader;
  }

  lemma AckComesFromWaiting(p: Sender, e: Event)
    requires Sane(p) && Ready(p, e) && Step(p, e).sender.phase.AwaitAckPayload?
    ensures p.phase.AwaitAck?
  {
    hide ParseHeader, FrameBytes, OfferFrame, ChunkFrame, DoneFrame;
  }

  /** The acknowledgement: all sent, then a header of that type, then a payload that begins with a
      nonzero byte. */
  ghost predicate Acknowledged(j: Job, events: seq<Event>)
    requires Feasible(Initial(j), events)
  {
    var n := |events|;
    && n >= 2 && Feasible(Initial(j), events[..n - 2]) && RunOf(Initial(j), events[..n - 2]).phase.AwaitAck?
    && HeaderGot(events, n - 2, 0x14)
    && events[n - 1].Got? && events[n - 1].data != [] && events[n - 1].data[0] != 0
  }

  /** Success is reported exactly after such an acknowledgement, and then the whole script was written. */
  lemma SuccessIff(j: Job, events: seq<Event>)
    requires Feasible(Initial(j), events)
    ensures RunOf(Initial(j), events).reports == [true] <==> Acknowledged(j, events)
    ensures Acknowledged(j, events) ==> WireOf(Initial(j), events) == Script(j)
  {
    hide Ready, Step, Feasible, RunOf, WireOf, Script, HeaderGot, Reached;
    NothingYet(j);
    if |events| >= 2 {
      var n := |events| - 1;
      var front, first := events[..n], events[..n - 1];
      LastEvent(j, events);
      NothingReportedBefore(j, events);
      var p := RunOf(Initial(j), front);
      LastReport(p, events[n]);
      RunReaches(j, front);
      LastEvent(j, front);
      assert front[..n - 1] == first && first + [front[n - 1]] == front;
      var q := RunOf(Initial(j), first);
      if q.phase.AwaitAck? {
        AckHeaderStep(q, first, front[n - 1]);
        SamePlace(front, events[n], n - 1);
        assert front + [events[n]] == events;
      }
      if p.phase.AwaitAckPayload? {
        AckComesFromWaiting(q, front[n - 1]);
        AckDone(j, p, front, WireOf(Initial(j), front));
        SilentStep(p, events[n]);
        assert WireOf(Initial(j), front) + [] == WireOf(Initial(j), front);
      }
    } else if |events| == 1 {
      OnlyConnected(j, events);
    }
  }

  lemma SamePlace(events: seq<Event>, e: Event, k: nat)
    requires k < |events|
    ensures HeaderGot(events + [e], k, 0x14) == HeaderGot(events, k, 0x14)
  {
    hide ParseHeader;
  }

  lemma SilentStep(p: Sender, e: Event)
    requires Sane(p) && Ready(p, e) && p.phase.AwaitAckPayload?
    ensures Step(p, e).out == []
  {
  }

  lemma OnlyConnected(j: Job, events: seq<Event>)
    requires Feasible(Initial(j), events) && |events| == 1
    ensures RunOf(Initial(j), events).reports != [true]
  {
    LastEvent(j, events);
    NothingReportedBefore(j, events);
    LastReport(RunOf(Initial(j), events[..0]), events[0]);
  }
}
