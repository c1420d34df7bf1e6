/** Every receiver callback keeps the session invariant and the link to the session it serves. */
module ReceiverInvariant {
  import opened Bytes
  import Crc32
  import opened Header
  import opened Payloads
  import opened Framing
  import opened Files
  import opened Sending
  import opened Receiving
  import opened Trust
  import opened Transfers
  import opened SessionInvariant

  /** The receiver may decide, acknowledge and hang up without disturbing the sender's position. */
  lemma AlignedSurvives(s: Session, t: Session)
    requires s.peer.Own? && t.peer == s.peer && SenderAligned(s)
    requires t.up.written == s.up.written && t.down.read == s.down.read && t.down.live == s.down.live
    requires s.decision.Undecided? || t.decision == s.decision
    requires s.acked.None? && !s.down.closed
    ensures SenderAligned(t)
  {
    hide FrameBytes, Rest, Script, OfferOf, OfferFrame;
  }

  /** What the receiver reads from a sender of this program is the script. */
  lemma ScriptFront(sha: Hash, s: Session, n: nat)
    requires SessionInv(sha, s) && s.peer.Own? && s.up.CanRead(n)
    ensures s.up.read + n <= |Script(s.peer.sender.job)|
    ensures s.up.Front(n) == Script(s.peer.sender.job)[s.up.read..s.up.read + n]
  {
    hide FrameBytes, Rest, Script, OfferOf, OfferFrame, ReplyScript, OwnLog;
    WrittenPrefix(s);
  }

  lemma HeaderFromScript(sha: Hash, s: Session, data: Text)
    requires SessionInv(sha, s) && s.peer.Own? && |data| == HEADER_SIZE
    requires s.up.CanRead(|data|) && data == s.up.Front(|data|)
    ensures HeaderAt(Script(s.peer.sender.job), s.up.read) == ParseHeader(data)
  {
    hide FrameBytes, Rest, Script, OfferOf, OfferFrame, ReplyScript, OwnLog, ParseHeader, SessionInv;
    ScriptFront(sha, s, HEADER_SIZE);
  }

  lemma HeaderAtSuffix(d: Text, k: nat)
    requires k <= |d|
    ensures HeaderAt(d, k) == HeaderAt(d[k..], 0)
  {
    hide ParseHeader;
    if k + HEADER_SIZE <= |d| {
      assert d[k..][0..HEADER_SIZE] == d[k..k + HEADER_SIZE];
    }
  }

  // ------------------------------------------------------------------ one callback at a time

  ghost predicate Kept(sha: Hash, r: Receiver, s: Session) {
    SessionInv(sha, s) && (r.phase.Listening? || Link(r, s))
  }

  lemma KeepsShaken(sha: Hash, r: Receiver, g: Gate, s: Session, ok: bool)
    requires SessionInv(sha, s) && Link(r, s) && ReceiverEnabled(r, g, s, RShaken(ok))
    ensures Kept(sha, RStep(sha, r, RShaken(ok)).receiver, ReceiverApply(sha, r, g, s, RShaken(ok)))
  {
    hide SessionInv, Script, Rest, FrameBytes, OfferFrame, OfferOf;
    assert s.down.Write([]) == s.down;
    assert ReceiverApply(sha, r, g, s, RShaken(ok)) == s;
  }

  lemma KeepsDecision(sha: Hash, r: Receiver, g: Gate, s: Session, e: REvent)
    requires SessionInv(sha, s) && Link(r, s) && ReceiverEnabled(r, g, s, e)
    requires e.UserAccepts? || e.UserRejects?
    ensures Kept(sha, RStep(sha, r, e).receiver, ReceiverApply(sha, r, g, s, e))
  {
    hide Script, Rest, FrameBytes, OfferFrame, OfferOf, SenderAligned;
    var t := ReceiverApply(sha, r, g, s, e);
    var d: Decision := if e.UserAccepts? then Accepted else Rejected(e.reason);
    NoReply(s.id, s.acked);
    assert t == s.(decision := d, down := s.down.Write(ReplyScript(s.id, d, None)));
    if s.peer.Own? {
      AlignedSurvives(s, t);
    }
  }

  lemma AfterOffer(j: Job)
    ensures |FrameBytes(OfferFrame(j))| <= |Script(j)|
    ensures Script(j)[|FrameBytes(OfferFrame(j))|..] == Rest(j, 0)
  {
    hide FrameBytes, Rest;
  }

  lemma KeepsAcceptWritten(sha: Hash, r: Receiver, g: Gate, s: Session, ok: bool, created: bool)
    requires SessionInv(sha, s) && Link(r, s) && ReceiverEnabled(r, g, s, RWritten(ok, created))
    requires r.phase.Accepting?
    ensures Kept(sha, RStep(sha, r, RWritten(ok, created)).receiver, ReceiverApply(sha, r, g, s, RWritten(ok, created)))
  {
    hide SessionInv, Script, Rest, FrameBytes, OfferFrame, OfferBytes, OfferOf, HeaderAt, Seal, ResolvedName, ParseOffer;
    assert s.down.Write([]) == s.down;
    assert ReceiverApply(sha, r, g, s, RWritten(ok, created)) == s;
    if s.peer.Own? {
      AfterOffer(s.peer.sender.job);
    }
  }

  /** Hanging up without a reply: after a rejection or an untrusted offer. */
  lemma KeepsHangUp(sha: Hash, r: Receiver, s: Session, t: Session)
    requires SessionInv(sha, s) && Link(r, s) && !s.decision.Accepted?
    requires t == s.(up := t.up, down := s.down.Write([]).Close()) && t.up.Valid() && t.up.written == s.up.written
    ensures SessionInv(sha, t)
  {
    hide Script, Rest, FrameBytes, OfferFrame, OfferOf, SenderAligned, ReplyScript;
    assert s.down.Write([]) == s.down;
    if s.peer.Own? {
      AlignedSurvives(s, t);
    }
  }

  /** Hanging up with a failure report and no reply: a lost connection or a foreign message. */
  lemma KeepsFailure(sha: Hash, r: Receiver, s: Session, t: Session)
    requires SessionInv(sha, s) && Link(r, s) && r.fileOpen && RSane(r)
    requires t == s.(up := t.up, down := s.down.Write([]).Close(), reports := s.reports + [Report(false, [])])
    requires t.up.Valid() && t.up.written == s.up.written
    ensures SessionInv(sha, t)
  {
    hide Script, Rest, FrameBytes, OfferFrame, OfferOf, SenderAligned, ReplyScript;
    assert s.down.Write([]) == s.down;
    if s.peer.Own? {
      AlignedSurvives(s, t);
    }
  }

  lemma KeepsReadFailed(sha: Hash, r: Receiver, g: Gate, s: Session)
    requires SessionInv(sha, s) && Link(r, s) && ReceiverEnabled(r, g, s, RReadFailed)
    ensures Kept(sha, RStep(sha, r, RReadFailed).receiver, ReceiverApply(sha, r, g, s, RReadFailed))
  {
    hide SessionInv, Script, Rest, FrameBytes, OfferFrame, OfferOf;
    var t := ReceiverApply(sha, r, g, s, RReadFailed);
    assert s.down.Write([]) == s.down;
    if r.fileOpen {
      KeepsFailure(sha, r, s, t);
    } else if r.phase.AwaitOffer? {
      assert t == s.(id := r.sessionId);
      NewId(sha, s, r.sessionId);
    } else {
      assert t == s;
    }
  }

  /** Before an offer has been raised the session id plays no role. */
  lemma NewId(sha: Hash, s: Session, id: u64)
    requires SessionInv(sha, s) && s.raised.None? && s.decision.Undecided?
    ensures SessionInv(sha, s.(id := id))
  {
    hide Script, Rest, FrameBytes, OfferFrame, OfferOf;
  }

  lemma ReadSome(sha: Hash, s: Session, n: nat)
    requires SessionInv(sha, s) && s.up.CanRead(n)
    ensures SessionInv(sha, s.(up := s.up.Take(n)))
  {
    hide Script, Rest, FrameBytes, OfferFrame, OfferOf, ReplyScript;
  }

  lemma KeepsOfferHeader(sha: Hash, r: Receiver, g: Gate, s: Session, data: Text, trusted: bool)
    requires SessionInv(sha, s) && Link(r, s) && ReceiverEnabled(r, g, s, RGot(data, trusted))
    requires r.phase.AwaitOffer?
    ensures Kept(sha, RStep(sha, r, RGot(data, trusted)).receiver, ReceiverApply(sha, r, g, s, RGot(data, trusted)))
  {
    hide SessionInv, Script, Rest, FrameBytes, OfferBytes, OfferOf, HeaderAt, ParseHeader, ParseOffer, Crc32.Crc;
    var o := RStep(sha, r, RGot(data, trusted));
    var t := ReceiverApply(sha, r, g, s, RGot(data, trusted));
    var u := s.(up := s.up.Take(HEADER_SIZE));
    assert s.down.Write([]) == s.down;
    assert t == u.(id := o.receiver.sessionId);
    ReadSome(sha, s, HEADER_SIZE);
    NewId(sha, u, o.receiver.sessionId);
    if s.peer.Own? {
      HeaderFromScript(sha, s, data);
      OfferStart(s.peer.sender.job);
    }
  }

  lemma KeepsOfferPayload(sha: Hash, r: Receiver, g: Gate, s: Session, data: Text, trusted: bool)
    requires SessionInv(sha, s) && Link(r, s) && ReceiverEnabled(r, g, s, RGot(data, trusted))
    requires r.phase.AwaitOfferPayload?
    ensures Kept(sha, RStep(sha, r, RGot(data, trusted)).receiver, ReceiverApply(sha, r, g, s, RGot(data, trusted)))
  {
    hide SessionInv, Script, Rest, FrameBytes, OfferBytes, OfferOf, HeaderAt, ParseHeader, ParseOffer, Seal;
    var t := ReceiverApply(sha, r, g, s, RGot(data, trusted));
    var u := s.(up := s.up.Take(|data|));
    assert s.down.Write([]) == s.down;
    ReadSome(sha, s, |data|);
    if s.peer.Own? {
      var j := s.peer.sender.job;
      OfferStart(j);
      ScriptFront(sha, s, |data|);
      assert data == Script(j)[HEADER_SIZE..][..|data|];
    }
    if trusted {
      assert t == u.(raised := Some(ParseOffer(data).value));
      RaiseOffer(sha, u, ParseOffer(data).value);
    } else {
      assert t == s.(up := t.up, down := s.down.Write([]).Close());
      KeepsHangUp(sha, r, s, t);
    }
  }

  lemma RaiseOffer(sha: Hash, s: Session, offer: Offer)
    requires SessionInv(sha, s) && s.acked.None?
    requires s.peer.Own? ==> offer == OfferOf(s.peer.sender.job) && s.id == s.peer.sender.job.sessionId
    ensures SessionInv(sha, s.(raised := Some(offer)))
  {
    hide Script, Rest, FrameBytes, OfferFrame, OfferOf, ReplyScript;
  }

  lemma KeepsChunk(sha: Hash, r: Receiver, g: Gate, s: Session, data: Text, trusted: bool)
    requires SessionInv(sha, s) && Link(r, s) && ReceiverEnabled(r, g, s, RGot(data, trusted))
    requires r.phase.AwaitChunkPayload?
    ensures Kept(sha, RStep(sha, r, RGot(data, trusted)).receiver, ReceiverApply(sha, r, g, s, RGot(data, trusted)))
  {
    hide SessionInv, Script, Rest, FrameBytes, OfferFrame, OfferOf, ParseHeader, ParseOffer;
    var t := ReceiverApply(sha, r, g, s, RGot(data, trusted));
    var u := s.(up := s.up.Take(|data|));
    assert s.down.Write([]) == s.down;
    assert t == u.(received := s.received + data);
    ReadSome(sha, s, |data|);
    StoreChunk(sha, u, data);
    if s.peer.Own? {
      OwnChunk(sha, r, s, data);
    }
  }

  /** A sender of this program: a chunk extends the stored bytes to a longer prefix of the file. */
  lemma OwnChunk(sha: Hash, r: Receiver, s: Session, data: Text)
    requires SessionInv(sha, s) && s.peer.Own? && OwnLink(r, s)
    requires r.phase.AwaitChunkPayload? && r.phase.len == |data|
    requires s.up.CanRead(|data|) && data == s.up.Front(|data|)
    ensures var j, w := s.peer.sender.job, |s.received| + |data|;
            && w <= |j.content| && s.received + data == j.content[..w]
            && s.up.read + |data| <= |Script(j)| && Script(j)[s.up.read + |data|..] == Rest(j, w)
  {
    hide SessionInv, Script, Rest, FrameBytes, OfferFrame, OfferOf;
    var j, w, n := s.peer.sender.job, |s.received|, |data|;
    ScriptFront(sha, s, n);
    var tail := Script(j)[s.up.read..];
    assert data == tail[..n] == j.content[w..w + n];
    assert Script(j)[s.up.read + n..] == tail[n..] == Rest(j, w + n);
  }

  lemma StoreChunk(sha: Hash, s: Session, data: Text)
    requires SessionInv(sha, s) && s.acked.None?
    ensures SessionInv(sha, s.(received := s.received + data))
  {
    hide Script, Rest, FrameBytes, OfferFrame, OfferOf, ReplyScript;
  }

  /** A sender of this program: the header at the receiver's position announces the next frame. */
  lemma OwnChunkHeader(sha: Hash, r: Receiver, s: Session, data: Text)
    requires SessionInv(sha, s) && Link(r, s) && r.phase.AwaitChunk? && s.peer.Own? && |data| == HEADER_SIZE
    requires s.up.CanRead(|data|) && data == s.up.Front(|data|)
    ensures ParseHeader(data) == Some(Seal(FrameHeader(NextFrame(s.peer.sender.job, |s.received|))))
  {
    hide SessionInv, Script, Rest, FrameBytes, OfferFrame, OfferOf, HeaderAt, ParseHeader, Seal, FrameHeader;
    var j := s.peer.sender.job;
    HeaderFromScript(sha, s, data);
    HeaderAtSuffix(Script(j), s.up.read);
    RestStart(j, |s.received|);
  }

  lemma KeepsChunkHeader(sha: Hash, r: Receiver, g: Gate, s: Session, data: Text, trusted: bool)
    requires SessionInv(sha, s) && Link(r, s) && ReceiverEnabled(r, g, s, RGot(data, trusted))
    requires r.phase.AwaitChunk? && ParseHeader(data).value.msgType == DATA_CHUNK
    ensures Kept(sha, RStep(sha, r, RGot(data, trusted)).receiver, ReceiverApply(sha, r, g, s, RGot(data, trusted)))
  {
    hide SessionInv, Script, Rest, FrameBytes, OfferFrame, OfferOf, ParseHeader, ParseOffer, HeaderAt, Crc32.Crc;
    var t := ReceiverApply(sha, r, g, s, RGot(data, trusted));
    assert s.down.Write([]) == s.down;
    assert t == s.(up := s.up.Take(HEADER_SIZE));
    ReadSome(sha, s, HEADER_SIZE);
    if s.peer.Own? {
      var j := s.peer.sender.job;
      OwnChunkHeader(sha, r, s, data);
      RestStart(j, |s.received|);
      ScriptFront(sha, s, HEADER_SIZE);
      assert Script(j)[s.up.read + HEADER_SIZE..] == Script(j)[s.up.read..][HEADER_SIZE..];
    }
  }

  /** Done from a sender of this program: the whole file has arrived, byte for byte. */
  lemma OwnDone(sha: Hash, r: Receiver, s: Session, data: Text)
    requires SessionInv(sha, s) && Link(r, s) && r.phase.AwaitChunk? && s.peer.Own? && |data| == HEADER_SIZE
    requires s.up.CanRead(|data|) && data == s.up.Front(|data|)
    requires ParseHeader(data).Some? && ParseHeader(data).value.msgType == TRANSFER_DONE
    ensures s.received == s.peer.sender.job.content
    ensures s.up.written == Script(s.peer.sender.job)
  {
    hide Script, FrameBytes, OfferFrame, OfferOf, HeaderAt, ParseHeader, ReplyScript, Crc32.Crc;
    var j := s.peer.sender.job;
    OwnChunkHeader(sha, r, s, data);
    WrittenPrefix(s);
    assert |Script(j)[s.up.read..]| == 54;
  }

  lemma KeepsDone(sha: Hash, r: Receiver, g: Gate, s: Session, data: Text, trusted: bool)
    requires SessionInv(sha, s) && Link(r, s) && ReceiverEnabled(r, g, s, RGot(data, trusted))
    requires r.phase.AwaitChunk? && ParseHeader(data).value.msgType == TRANSFER_DONE
    ensures SessionInv(sha, ReceiverApply(sha, r, g, s, RGot(data, trusted)))
  {
    hide SessionInv, Script, Rest, FrameBytes, OfferFrame, OwnLink, ParseHeader, ParseOffer, HeaderAt;
    var t := ReceiverApply(sha, r, g, s, RGot(data, trusted));
    var ok := sha(r.files[r.filePath]) == r.offer.sha256;
    assert FrameBytes(AckFrame(s.id, ok)) != [];
    assert t == s.(up := s.up.Take(HEADER_SIZE).Cut(), down := s.down.Write(FrameBytes(AckFrame(s.id, ok))).Close(),
                   acked := Some(ok), reports := s.reports + [Report(ok, r.filePath)]);
    if s.peer.Own? {
      OwnDone(sha, r, s, data);
    }
    Acknowledge(sha, s, t, ok, r.filePath);
  }

  lemma Acknowledge(sha: Hash, s: Session, t: Session, ok: bool, path: Text)
    requires SessionInv(sha, s) && !s.down.closed && s.acked.None? && s.reports == []
    requires s.decision.Accepted? && s.raised.Some? && s.up.CanRead(HEADER_SIZE)
    requires ok == (sha(s.received) == s.raised.value.sha256)
    requires t == s.(up := s.up.Take(HEADER_SIZE).Cut(), down := s.down.Write(FrameBytes(AckFrame(s.id, ok))).Close(),
                     acked := Some(ok), reports := s.reports + [Report(ok, path)])
    requires s.peer.Own? ==> s.received == s.peer.sender.job.content && s.up.written == Script(s.peer.sender.job)
    ensures SessionInv(sha, t)
  {
    hide Script, Rest, FrameBytes, OfferFrame, SenderAligned;
    assert t.down.written == ReplyScript(t.id, t.decision, t.acked);
    if s.peer.Own? {
      AlignedSurvives(s, t);
    }
  }

  lemma RejectingIsRejected(r: Receiver, s: Session)
    requires Link(r, s) && r.phase.Rejecting?
    ensures s.decision.Rejected?
  {
    hide OwnLink;
  }

  /** A callback that returns to listening has hung up. */
  lemma ListeningHangsUp(sha: Hash, r: Receiver, g: Gate, s: Session, e: REvent)
    requires ReceiverEnabled(r, g, s, e) && !r.phase.Listening?
    ensures RStep(sha, r, e).receiver.phase.Listening? ==> ReceiverApply(sha, r, g, s, e).down.closed
  {
    hide ParseHeader, ParseOffer, FrameBytes, ResolvedName;
  }

  /** Every receiver callback keeps the session invariant and the link. */
  lemma ReceiverKeeps(sha: Hash, r: Receiver, g: Gate, s: Session, e: REvent)
    requires SessionInv(sha, s) && Link(r, s) && ReceiverEnabled(r, g, s, e)
    ensures Kept(sha, RStep(sha, r, e).receiver, ReceiverApply(sha, r, g, s, e))
  {
    hide SessionInv, Link, ParseHeader, ParseOffer, FrameBytes;
    var t := ReceiverApply(sha, r, g, s, e);
    match e
    case RShaken(ok) => KeepsShaken(sha, r, g, s, ok);
    case UserAccepts => KeepsDecision(sha, r, g, s, e);
    case UserRejects(_) => KeepsDecision(sha, r, g, s, e);
    case RReadFailed => KeepsReadFailed(sha, r, g, s);
    case RWritten(ok, created) =>
      if r.phase.Accepting? {
        KeepsAcceptWritten(sha, r, g, s, ok, created);
      } else {
        RejectingIsRejected(r, s);
        KeepsHangUp(sha, r, s, t);
      }
    case RGot(data, trusted) =>
      match r.phase {
        case AwaitOffer => KeepsOfferHeader(sha, r, g, s, data, trusted);
        case AwaitOfferPayload(_) => KeepsOfferPayload(sha, r, g, s, data, trusted);
        case AwaitChunkPayload(_) => KeepsChunk(sha, r, g, s, data, trusted);
        case AwaitChunk =>
          if ParseHeader(data).value.msgType == DATA_CHUNK {
            KeepsChunkHeader(sha, r, g, s, data, trusted);
          } else if ParseHeader(data).value.msgType == TRANSFER_DONE {
            KeepsDone(sha, r, g, s, data, trusted);
          } else {
            KeepsFailure(sha, r, s, t);
          }
      }
  }
}
