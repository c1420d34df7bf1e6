/** What holds of one session in every run: how far both peers are in the conversation. */
module SessionInvariant {
  import opened Bytes
  import Crc32
  import opened Header
  import opened Payloads
  import opened Framing
  import opened Files
  import opened Channels
  import opened Sending
  import opened Receiving
  import opened Transfers

  // ------------------------------------------------------------------ the scripts

  function NextFrame(j: Job, position: nat): Frame
    requires position <= |j.content|
  {
    if position < |j.content| then ChunkFrame(j, position) else DoneFrame(j)
  }

  /** Everything the sender writes once it has sent the first `position` bytes of the file. */
  function Rest(j: Job, position: nat): (r: Text)
    requires position <= |j.content|
    ensures |r| >= |FrameBytes(DoneFrame(j))| == 54
    decreases |j.content| - position
  {
    if position < |j.content|
    then FrameBytes(ChunkFrame(j, position)) + Rest(j, position + ChunkLength(j, position))
    else FrameBytes(DoneFrame(j))
  }

  /** The sender's side of a whole accepted transfer. */
  function Script(j: Job): Text { FrameBytes(OfferFrame(j)) + Rest(j, 0) }

  /** The receiver's side: its decision, then its acknowledgement. */
  function ReplyScript(id: u64, decision: Decision, acked: Option<bool>): Text {
    match decision
    case Undecided => []
    case Rejected(reason) => FrameBytes(RejectFrame(id, reason))
    case Accepted =>
      FrameBytes(AcceptFrame(id)) + (if acked.Some? then FrameBytes(AckFrame(id, acked.value)) else [])
  }

  // ------------------------------------------------------------------ the invariant

  /** What has been written once the file has been read up to `position`. */
  predicate Follows(j: Job, up: Text, position: nat)
    requires position <= |j.content|
  {
    || (up == [] && position == 0)
    || up + Rest(j, position) == Script(j)
    || (up == Script(j) && position == |j.content|)
  }

  /** Where a sender of this program is: what it has written, what it has read, what it reported. */
  predicate SenderAligned(s: Session)
    requires s.peer.Own?
  {
    var p, j, up := s.peer.sender, s.peer.sender.job, s.up.written;
    && Sane(p)
    && (p.phase.Finished? || p.reports == [])
    && match p.phase
       case Connecting => false
       case Handshaking => up == [] && s.down.read == 0 && p.position == p.bytesSent == 0
       case AwaitReply => up == FrameBytes(OfferFrame(j)) && s.down.read == 0 && p.position == p.bytesSent == 0
       case AwaitNoise(_) => false
       case AwaitReason(len) =>
         && len == 1 && s.decision.Rejected? && s.down.read == HEADER_SIZE
         && up == FrameBytes(OfferFrame(j)) && p.position == p.bytesSent == 0
       case Writing(n) =>
         && s.decision.Accepted? && s.down.read == HEADER_SIZE
         && up + Rest(j, p.position) == Script(j) && p.bytesSent + n == p.position
       case AwaitAck =>
         && s.decision.Accepted? && s.down.read == HEADER_SIZE
         && up == Script(j) && p.bytesSent == p.position == |j.content|
       case AwaitAckPayload(len) =>
         && len == 1 && s.acked == Some(true) && s.down.read == 2 * HEADER_SIZE
         && up == Script(j) && p.bytesSent == p.position == |j.content|
       case Finished =>
         && Follows(j, up, p.position)
         && |p.reports| == 1 && p.bytesSent <= p.position
         && (up == Script(j) ==> p.bytesSent == |j.content|)
         && (p.reports == [true] ==> s.acked == Some(true) && up == Script(j))
         && (p.reports != [true] && up == Script(j) ==> !s.down.live || (s.down.closed && s.acked != Some(true)))
  }

  /** What the receiver's log says about a session with a sender of this program. */
  predicate OwnLog(sha: Hash, s: Session)
    requires s.peer.Own?
  {
    var j := s.peer.sender.job;
    && j.digest == sha(j.content)
    && (s.acked.Some? ==> s.acked.value && s.received == j.content && s.up.written == Script(j))
    && (s.raised.Some? ==> s.raised.value == OfferOf(j) && s.id == j.sessionId)
  }

  predicate OwnInv(sha: Hash, s: Session)
    requires s.peer.Own?
  {
    OwnLog(sha, s) && SenderAligned(s)
  }

  /** Any session, running or over. */
  predicate SessionInv(sha: Hash, s: Session) {
    && s.up.Valid() && s.down.Valid()
    && s.down.written == ReplyScript(s.id, s.decision, s.acked)
    && |s.reports| <= 1
    && (s.acked.Some? ==> |s.reports| == 1 && s.reports[0].ok == s.acked.value)
    && (s.reports != [] ==> s.decision.Accepted? && s.down.closed && (s.reports[0].ok ==> s.acked == Some(true)))
    && (s.reports != [] && s.acked.None? ==> s.reports[0] == Report(false, []))
    && (s.acked.Some? ==> s.raised.Some? && s.acked.value == (sha(s.received) == s.raised.value.sha256))
    && (s.decision != Undecided ==> s.raised.Some?)
    && (s.decision.Accepted? && s.down.closed ==> s.reports != [])
    && (s.peer.Own? ==> OwnInv(sha, s))
  }

  /** How far the receiver is in the script of a sender of this program. */
  predicate OwnLink(r: Receiver, s: Session)
    requires s.peer.Own?
  {
    var j := s.peer.sender.job;
    var offerLength := |FrameBytes(OfferFrame(j))|;
    match r.phase
    case Listening => true
    case Stalled => true
    case Greeting => s.up.read == 0
    case AwaitOffer => s.up.read == 0
    case AwaitOfferPayload(len) =>
      && s.up.read == HEADER_SIZE && len == |OfferBytes(OfferOf(j))| <= CHUNK_SIZE && r.sessionId == j.sessionId
    case Deciding => s.up.read == offerLength
    case Accepting => s.up.read == offerLength
    case Rejecting => s.up.read == offerLength
    case AwaitChunk =>
      && s.received <= j.content && s.up.read <= |Script(j)|
      && Script(j)[s.up.read..] == Rest(j, |s.received|)
    case AwaitChunkPayload(len) =>
      var w := |s.received|;
      && w < |j.content| && s.received <= j.content && len == ChunkLength(j, w) && s.up.read <= |Script(j)|
      && Script(j)[s.up.read..] == j.content[w..w + len] + Rest(j, w + len)
  }

  /** The session that the receiver is serving. */
  predicate Link(r: Receiver, s: Session) {
    && !s.down.closed && s.acked.None? && s.reports == []
    && (match r.phase
        case Listening => true
        case Stalled => true
        case Greeting => s.raised.None? && s.decision.Undecided? && s.received == []
        case AwaitOffer => s.raised.None? && s.decision.Undecided? && s.received == []
        case AwaitOfferPayload(_) =>
          s.raised.None? && s.decision.Undecided? && s.received == [] && s.id == r.sessionId
        case Deciding =>
          s.raised == Some(r.offer) && s.decision.Undecided? && s.received == [] && s.id == r.sessionId
        case Accepting =>
          s.raised == Some(r.offer) && s.decision.Accepted? && s.received == [] && s.id == r.sessionId
        case Rejecting => s.decision.Rejected?
        case _ =>
          && s.raised == Some(r.offer) && s.decision.Accepted? && s.id == r.sessionId
          && r.filePath in r.files && r.files[r.filePath] == s.received)
    && (s.peer.Own? ==> OwnLink(r, s))
  }

  // ------------------------------------------------------------------ script lemmas

  lemma RestStart(j: Job, position: nat)
    requires position <= |j.content|
    ensures HeaderAt(Rest(j, position), 0) == Some(Seal(FrameHeader(NextFrame(j, position))))
    ensures position < |j.content| ==>
              var n := ChunkLength(j, position);
              Rest(j, position)[HEADER_SIZE..] == j.content[position..position + n] + Rest(j, position + n)
  {
    hide FrameBytes, HeaderAt, Seal;
    var f := NextFrame(j, position);
    var tail := if position < |j.content| then Rest(j, position + ChunkLength(j, position)) else [];
    FrameInside([], f, tail);
    assert Rest(j, position) == [] + FrameBytes(f) + tail;
  }

  lemma OfferStart(j: Job)
    ensures HeaderAt(Script(j), 0) == Some(Seal(FrameHeader(OfferFrame(j))))
    ensures |FrameBytes(OfferFrame(j))| == HEADER_SIZE + |OfferBytes(OfferOf(j))|
    ensures Script(j)[HEADER_SIZE..] == OfferBytes(OfferOf(j)) + Rest(j, 0)
    ensures |OfferBytes(OfferOf(j))| <= CHUNK_SIZE ==> ParseOffer(OfferBytes(OfferOf(j))) == Some(OfferOf(j))
  {
    hide FrameBytes, HeaderAt, Seal, OfferBytes, ParseOffer, Rest;
    FrameInside([], OfferFrame(j), Rest(j, 0));
    assert Script(j) == [] + FrameBytes(OfferFrame(j)) + Rest(j, 0);
    OfferRoundTrip(OfferOf(j));
    if |OfferBytes(OfferOf(j))| <= CHUNK_SIZE {
      assert Cut(j.device) == j.device;
    }
  }

  lemma AcceptReply(id: u64, acked: Option<bool>)
    ensures |ReplyScript(id, Accepted, acked)| == if acked.Some? then 45 else 22
    ensures HeaderAt(ReplyScript(id, Accepted, acked), 0) == Some(Seal(FrameHeader(AcceptFrame(id))))
  {
    hide FrameBytes, HeaderAt, Seal;
    var tail := if acked.Some? then FrameBytes(AckFrame(id, acked.value)) else [];
    FrameInside([], AcceptFrame(id), tail);
    assert ReplyScript(id, Accepted, acked) == [] + FrameBytes(AcceptFrame(id)) + tail;
  }

  lemma AckReply(id: u64, ok: bool)
    ensures HeaderAt(ReplyScript(id, Accepted, Some(ok)), 22) == Some(Seal(FrameHeader(AckFrame(id, ok))))
    ensures ReplyScript(id, Accepted, Some(ok))[44..] == AckBytes(ok)
  {
    hide FrameBytes, HeaderAt, Seal;
    FrameInside(FrameBytes(AcceptFrame(id)), AckFrame(id, ok), []);
    assert ReplyScript(id, Accepted, Some(ok)) ==
           FrameBytes(AcceptFrame(id)) + FrameBytes(AckFrame(id, ok)) + [];
  }

  lemma RejectReply(id: u64, reason: Byte, acked: Option<bool>)
    ensures |ReplyScript(id, Rejected(reason), acked)| == 23
    ensures HeaderAt(ReplyScript(id, Rejected(reason), acked), 0) == Some(Seal(FrameHeader(RejectFrame(id, reason))))
  {
    hide FrameBytes, HeaderAt, Seal;
    FrameInside([], RejectFrame(id, reason), []);
    assert ReplyScript(id, Rejected(reason), acked) == [] + FrameBytes(RejectFrame(id, reason)) + [];
  }

  /** The sender follows its script, and short of the end it lacks at least the done message. */
  lemma WrittenPrefix(s: Session)
    requires s.peer.Own? && SenderAligned(s)
    ensures var j := s.peer.sender.job;
            && Follows(j, s.up.written, s.peer.sender.position)
            && s.up.written <= Script(j) && (s.up.written == Script(j) || |s.up.written| + 54 <= |Script(j)|)
            && (s.peer.sender.phase.AwaitAck? || s.peer.sender.phase.AwaitAckPayload? ==> s.up.written == Script(j))
            && (s.up.written == Script(j) ==> s.peer.sender.phase.AwaitAck? || s.peer.sender.phase.AwaitAckPayload?
                                              || s.peer.sender.phase.Finished?)
  {
    hide FrameBytes, Rest;
  }

  // ------------------------------------------------------------------ sender steps

  /** The parts of a session that sender callbacks do not touch. */
  predicate SameLog(s: Session, t: Session) {
    && t == s.(peer := t.peer, up := t.up, down := t.down)
    && t.up == s.up.(written := t.up.written, delivered := t.up.delivered, live := t.up.live)
    && t.down == s.down.(delivered := t.down.delivered, read := t.down.read, live := t.down.live)
    && (s.peer.Own? <==> t.peer.Own?) && (s.peer.Own? ==> s.peer.sender.job == t.peer.sender.job)
  }

  lemma LinkSurvives(r: Receiver, s: Session, t: Session)
    requires SameLog(s, t)
    ensures Link(r, s) <==> Link(r, t)
  {
    hide FrameBytes, Rest, Script, OfferBytes;
  }

  lemma LogSurvives(sha: Hash, s: Session, t: Session)
    requires SessionInv(sha, s) && SameLog(s, t)
    requires t.up.Valid() && t.down.Valid() && (t.peer.Own? ==> OwnInv(sha, t))
    ensures SessionInv(sha, t)
  {
    hide OwnInv, ReplyScript;
  }

  /** Until the script is written out, nothing has been acknowledged. */
  lemma NotAcked(sha: Hash, s: Session)
    requires s.peer.Own? && OwnInv(sha, s)
    requires s.peer.sender.phase.Handshaking? || s.peer.sender.phase.AwaitReply? || s.peer.sender.phase.Writing?
    ensures s.acked.None?
  {
    hide FrameBytes, Rest;
  }

  /** Writing the next chunk, or the done message, follows the script. */
  lemma NextChunkAligned(sha: Hash, s: Session, p: Sender)
    requires s.peer.Own? && OwnLog(sha, s) && s.acked.None?
    requires p.job == s.peer.sender.job && Sane(p) && p.reports == [] && p.bytesSent == p.position
    requires s.decision.Accepted? && s.down.read == HEADER_SIZE
    requires s.up.written + Rest(p.job, p.position) == Script(p.job)
    ensures var o := NextChunk(p);
            OwnInv(sha, s.(peer := Own(o.sender), up := s.up.Write(o.out)))
  {
    hide FrameBytes;
    var j := p.job;
    var up := s.up.written;
    if p.position < |j.content| {
      var n := ChunkLength(j, p.position);
      var f := FrameBytes(ChunkFrame(j, p.position));
      assert up + (f + Rest(j, p.position + n)) == (up + f) + Rest(j, p.position + n);
    }
  }

  /** A header-sized read sees the header at the reading position. */
  lemma FrontHeader(c: Channel, data: Text)
    requires c.Valid() && |data| == HEADER_SIZE && c.CanRead(|data|) && data == c.Front(|data|)
    ensures HeaderAt(c.written, c.read) == ParseHeader(data)
  {
    hide ParseHeader;
  }

  lemma GotReply(sha: Hash, s: Session, data: Text)
    requires SessionInv(sha, s) && SenderEnabled(s, Got(data)) && s.peer.sender.phase.AwaitReply?
    ensures OwnInv(sha, SenderApply(s, Got(data)))
  {
    hide FrameBytes, Rest, OfferBytes, ReplyScript, HeaderAt, ParseHeader;
    var p := s.peer.sender;
    FrontHeader(s.down, data);
    match s.decision
    case Undecided => NoReply(s.id, s.acked);
    case Rejected(reason) => RejectReply(s.id, reason, s.acked);
    case Accepted =>
      AcceptReply(s.id, s.acked);
      NotAcked(sha, s);
      NextChunkAligned(sha, s.(down := s.down.Take(HEADER_SIZE)), p);
  }

  lemma NoReply(id: u64, acked: Option<bool>)
    ensures ReplyScript(id, Undecided, acked) == []
  {
  }

  /** What waits behind the accept, once there is anything, is a positive acknowledgement. */
  lemma AckWaiting(sha: Hash, s: Session)
    requires SessionInv(sha, s) && s.peer.Own? && s.decision.Accepted? && |s.down.written| > 22
    ensures s.acked == Some(true) && |s.down.written| == 45
    ensures HeaderAt(s.down.written, 22) == Some(Seal(FrameHeader(AckFrame(s.id, true))))
    ensures s.down.written[44] == 1
  {
    hide Script, OfferOf, ReplyScript, HeaderAt, Seal, SenderAligned, FrameHeader;
    AcceptReply(s.id, s.acked);
    AckReply(s.id, true);
    assert s.down.written[44] == s.down.written[44..][0];
  }

  lemma GotAck(sha: Hash, s: Session, data: Text)
    requires SessionInv(sha, s) && SenderEnabled(s, Got(data)) && s.peer.sender.phase.AwaitAck?
    ensures OwnInv(sha, SenderApply(s, Got(data)))
  {
    hide FrameBytes, Rest, Script, OfferOf, ReplyScript, HeaderAt, ParseHeader, Crc32.Crc, Follows;
    FrontHeader(s.down, data);
    AckWaiting(sha, s);
    assert s.up.Write([]) == s.up;
  }

  lemma GotAckPayload(sha: Hash, s: Session, data: Text)
    requires SessionInv(sha, s) && SenderEnabled(s, Got(data)) && s.peer.sender.phase.AwaitAckPayload?
    ensures OwnInv(sha, SenderApply(s, Got(data)))
  {
    hide FrameBytes, Rest, Script, OfferOf, ReplyScript, HeaderAt, ParseHeader, Seal;
    AckWaiting(sha, s);
    assert data[0] == s.down.written[44];
    assert s.up.Write([]) == s.up;
    WrittenPrefix(s);
  }

  /** Giving up with a failure report is consistent with the script, whatever was written. */
  lemma GivingUp(sha: Hash, s: Session, t: Session)
    requires s.peer.Own? && OwnInv(sha, s) && !s.peer.sender.phase.Finished?
    requires s.peer.sender.phase.AwaitAck? || s.peer.sender.phase.AwaitAckPayload? ==>
               !s.down.live || (s.down.closed && s.acked != Some(true))
    requires t == s.(peer := Own(Complete(s.peer.sender, false)), up := s.up.Write([]), down := t.down)
    requires t.down.live == s.down.live && t.down.closed == s.down.closed
    ensures OwnInv(sha, t)
  {
    hide FrameBytes, Rest, Script, OfferBytes, OfferOf;
    WrittenPrefix(s);
    assert s.up.Write([]) == s.up;
    var q := t.peer.sender;
    assert q.reports == [false] && q.reports[0] == false;
    assert q.bytesSent <= q.position;
    assert SenderAligned(t);
  }

  lemma GotReason(sha: Hash, s: Session, data: Text)
    requires SessionInv(sha, s) && SenderEnabled(s, Got(data)) && s.peer.sender.phase.AwaitReason?
    ensures OwnInv(sha, SenderApply(s, Got(data)))
  {
    hide OwnInv, ReplyScript, ParseHeader;
    GivingUp(sha, s, SenderApply(s, Got(data)));
  }

  lemma OfferSent(sha: Hash, s: Session)
    requires s.peer.Own? && OwnInv(sha, s) && s.peer.sender.phase.Handshaking?
    ensures var p := s.peer.sender;
            OwnInv(sha, s.(peer := Own(p.(phase := AwaitReply)), up := s.up.Write(FrameBytes(OfferFrame(p.job)))))
  {
    hide FrameBytes, Rest, Script, OfferBytes, OfferOf;
    NotAcked(sha, s);
    assert [] + FrameBytes(OfferFrame(s.peer.sender.job)) == FrameBytes(OfferFrame(s.peer.sender.job));
  }

  lemma SenderShaken(sha: Hash, s: Session, ok: bool)
    requires SessionInv(sha, s) && SenderEnabled(s, Shaken(ok))
    ensures OwnInv(sha, SenderApply(s, Shaken(ok)))
  {
    hide OwnInv, ReplyScript, FrameBytes;
    if ok {
      OfferSent(sha, s);
    } else {
      GivingUp(sha, s, SenderApply(s, Shaken(ok)));
    }
  }

  lemma ChunkWritten(sha: Hash, s: Session)
    requires s.peer.Own? && OwnInv(sha, s) && s.peer.sender.phase.Writing?
    ensures var p := s.peer.sender;
            var o := NextChunk(p.(bytesSent := p.bytesSent + p.phase.size));
            OwnInv(sha, s.(peer := Own(o.sender), up := s.up.Write(o.out)))
  {
    hide FrameBytes, Rest, Script, OfferBytes, OfferOf, NextChunk;
    var p := s.peer.sender;
    NotAcked(sha, s);
    NextChunkAligned(sha, s, p.(bytesSent := p.bytesSent + p.phase.size));
  }

  lemma SenderWritten(sha: Hash, s: Session, ok: bool)
    requires SessionInv(sha, s) && SenderEnabled(s, Written(ok))
    ensures OwnInv(sha, SenderApply(s, Written(ok)))
  {
    hide OwnInv, ReplyScript, NextChunk;
    if ok {
      ChunkWritten(sha, s);
    } else {
      GivingUp(sha, s, SenderApply(s, Written(ok)));
    }
  }

  /** A read can fail after the done message only when the acknowledgement was lost, or when the
      receiver gave up without sending one. */
  lemma AckLost(sha: Hash, s: Session)
    requires SessionInv(sha, s) && SenderEnabled(s, ReadFailed)
    requires s.peer.sender.phase.AwaitAck? || s.peer.sender.phase.AwaitAckPayload?
    ensures !s.down.live || (s.down.closed && s.acked != Some(true))
  {
    hide FrameBytes, Rest, Script, OfferBytes, ReplyScript, HeaderAt, Seal;
    AcceptReply(s.id, s.acked);
  }

  lemma SenderReadFailed(sha: Hash, s: Session)
    requires SessionInv(sha, s) && SenderEnabled(s, ReadFailed)
    ensures OwnInv(sha, SenderApply(s, ReadFailed))
  {
    assert !s.peer.sender.phase.AwaitNoise?;
    hide OwnInv, ReplyScript;
    if s.peer.sender.phase.AwaitAck? || s.peer.sender.phase.AwaitAckPayload? {
      AckLost(sha, s);
    }
    GivingUp(sha, s, SenderApply(s, ReadFailed));
  }

  lemma SenderGot(sha: Hash, s: Session, data: Text)
    requires SessionInv(sha, s) && SenderEnabled(s, Got(data))
    ensures OwnInv(sha, SenderApply(s, Got(data)))
  {
    assert !s.peer.sender.phase.AwaitNoise?;
    hide OwnInv, ReplyScript, Step;
    match s.peer.sender.phase
    case AwaitReply => GotReply(sha, s, data);
    case AwaitReason(_) => GotReason(sha, s, data);
    case AwaitAck => GotAck(sha, s, data);
    case AwaitAckPayload(_) => GotAckPayload(sha, s, data);
  }

  /** Every sender callback keeps the session invariant and leaves the receiver's view alone. */
  lemma SenderKeeps(sha: Hash, s: Session, e: Event)
    requires SessionInv(sha, s) && SenderEnabled(s, e)
    ensures SameLog(s, SenderApply(s, e)) && SessionInv(sha, SenderApply(s, e))
  {
    hide OwnInv, Step, ReplyScript;
    StepSane(s.peer.sender, e);
    match e {
      case Shaken(ok) => SenderShaken(sha, s, ok);
      case Written(ok) => SenderWritten(sha, s, ok);
      case ReadFailed => SenderReadFailed(sha, s);
      case Got(data) => SenderGot(sha, s, data);
    }
    LogSurvives(sha, s, SenderApply(s, e));
  }
}
