/** Peers of this program understand each other, and an accepted transfer without errors ends in
    success on both sides. */
module TransferProgress {
  import opened Bytes
  import Crc32
  import opened Header
  import opened Payloads
  import opened Framing
  import opened Files
  import opened Channels
  import opened Sending
  import opened Receiving
  import opened Trust
  import opened Transfers
  import opened SessionInvariant
  import opened ReceiverInvariant
  import opened TransferSafety
  import opened TransferTheorems

  // ------------------------------------------------------------------ decodability

  lemma ReceiverCanDecode(sha: Hash, r: Receiver, s: Session, n: nat)
    requires SessionInv(sha, s) && Link(r, s) && s.peer.Own? && RWanted(r.phase) == Some(n) && s.up.CanRead(n)
    ensures Decodable(r.phase, s.up.Front(n))
    ensures r.phase.AwaitChunkPayload? ==> HEADER_SIZE + n <= MAX_BUFFER_SIZE
  {
    hide SessionInv, Script, Rest, FrameBytes, OfferBytes, OfferOf, HeaderAt, ParseHeader, ParseOffer, Crc32.Crc;
    SessionChannels(sha, s);
    var j, data := s.peer.sender.job, s.up.Front(n);
    match r.phase
    case AwaitOffer =>
      HeaderFromScript(sha, s, data);
      OfferStart(j);
    case AwaitOfferPayload(_) =>
      OfferStart(j);
      ScriptFront(sha, s, n);
      assert data == Script(j)[HEADER_SIZE..][..n];
      OfferName(j);
    case AwaitChunk =>
      OwnChunkHeader(sha, r, s, data);
    case AwaitChunkPayload(_) =>
  }

  lemma OfferName(j: Job)
    ensures OfferOf(j).fileName == j.name && Flat(j.name)
  {
  }

  lemma SenderCanDecode(sha: Hash, s: Session, n: nat)
    requires SessionInv(sha, s) && s.peer.Own? && Wanted(s.peer.sender.phase) == Some(n) && s.down.CanRead(n)
    ensures Ready(s.peer.sender, Got(s.down.Front(n))) && n <= HEADER_SIZE
  {
    hide Script, Rest, FrameBytes, OfferBytes, OfferOf, HeaderAt, ParseHeader, ReplyScript, Crc32.Crc, Follows;
    var data := s.down.Front(n);
    if |data| == HEADER_SIZE {
      FrontHeader(s.down, data);
    }
    match s.decision
    case Undecided => NoReply(s.id, s.acked);
    case Rejected(reason) => RejectReply(s.id, reason, s.acked);
    case Accepted =>
      AcceptReply(s.id, s.acked);
      if s.acked.Some? {
        AckReply(s.id, s.acked.value);
      }
  }

  /** In every reachable state, whatever the two peers of this program can read from each other the
      parsers accept, and every chunk fits the receiver's buffer behind its header. */
  lemma OwnPeersUnderstandEachOther(sha: Hash, disk: map<Text, Text>, w: World, i: nat, n: nat)
    requires Reachable(sha, disk, w) && i < |w.sessions| && w.sessions[i].peer.Own?
    ensures var s := w.sessions[i];
            && s.up.Valid() && s.down.Valid()
            && (i == |w.sessions| - 1 && RWanted(w.receiver.phase) == Some(n) && s.up.CanRead(n) ==>
                  && Decodable(w.receiver.phase, s.up.Front(n))
                  && (w.receiver.phase.AwaitChunkPayload? ==> HEADER_SIZE + n <= MAX_BUFFER_SIZE))
            && (Wanted(s.peer.sender.phase) == Some(n) && s.down.CanRead(n) ==>
                  Ready(s.peer.sender, Got(s.down.Front(n))))
  {
    hide Reachable, SessionInv, Link, Decodable, Ready, Settled, FreshNames, Added;
    ReachableInv(sha, disk, w);
    var s := w.sessions[i];
    SessionChannels(sha, s);
    if i == |w.sessions| - 1 && RWanted(w.receiver.phase) == Some(n) && s.up.CanRead(n) {
      ReceiverCanDecode(sha, w.receiver, s, n);
    }
    if Wanted(s.peer.sender.phase) == Some(n) && s.down.CanRead(n) {
      SenderCanDecode(sha, s, n);
    }
  }

  // ------------------------------------------------------------------ error-free runs

  /** The receiver is busy with session `i`. */
  predicate Serving(w: World, i: nat) { i == |w.sessions| - 1 && !w.receiver.phase.Listening? }

  /** The actions of an accepted transfer in session `i` in which nothing fails. */
  predicate Clean(w: World, i: nat, a: Action) {
    match a
    case SenderAct(j, e) => j == i && (e == Shaken(true) || e == Written(true) || e.Got?)
    case ReceiverAct(e) =>
      Serving(w, i) && (e == RShaken(true) || e == UserAccepts || e == RWritten(true, true) || e.RGot?)
    case DeliverUp(j, _) => j == i
    case DeliverDown(j, _) => j == i
    case _ => false
  }

  /** The actions that are not about session `i`: all that other sessions do, well or badly, before it
      and after it, new connections, and the user's trust decisions. */
  predicate Elsewhere(w: World, i: nat, a: Action) {
    match a
    case Dial(_, _) => true
    case AcceptFails => true
    case SenderAct(j, _) => j != i
    case ReceiverAct(_) => !Serving(w, i)
    case DeliverUp(j, _) => j != i
    case DeliverDown(j, _) => j != i
    case Disconnect(j) => j != i
    case ForeignWrite(j, _) => j != i
    case UserTrusts => true
    case UserIgnores => true
  }

  /** Session `i` is a transfer by this program to a receiver that trusts it, with an offer that fits
      the buffer, and nothing has failed in it so far. */
  predicate Smooth(w: World, i: nat) {
    i < |w.sessions| &&
    var r, s := w.receiver, w.sessions[i];
    && s.peer.Own? && |OfferBytes(OfferOf(s.peer.sender.job))| <= CHUNK_SIZE && Known(w.gate, s.certificate)
    && s.down.live && !s.decision.Rejected?
    && (if Serving(w, i)
        then s.up.live && !r.phase.Stalled? && !r.phase.Rejecting? && !s.peer.sender.phase.Finished?
        else s.acked == Some(true) && (s.peer.sender.phase.Finished? ==> s.peer.sender.reports == [true]))
  }

  /** Both sides of session `i` have reported success. */
  predicate BothSucceeded(w: World, i: nat) {
    i < |w.sessions| &&
    var s := w.sessions[i];
    && s.peer.Own? && s.peer.sender.reports == [true] && s.reports != [] && s.reports[0].ok
  }

  function Rank(phase: RPhase): nat {
    match phase
    case Greeting => 0
    case AwaitOffer => 1
    case AwaitOfferPayload(_) => 1
    case Deciding => 1
    case Accepting => 1
    case _ => 2
  }

  function Traffic(c: Channel): nat { |c.written| + c.delivered + c.read }

  /** Bytes written, delivered and read so far in session `i`, and the receiver's phase in it. */
  function Progress(w: World, i: nat): nat
    requires i < |w.sessions|
  {
    var s := w.sessions[i];
    Traffic(s.up) + Traffic(s.down) + if Serving(w, i) then Rank(w.receiver.phase) else 2
  }

  /** Three times all the bytes of the conversation: the sender writes 128 bytes around both names, the
      file and 22 bytes per chunk, the receiver 45. */
  function Horizon(j: Job): nat {
    var chunks := (|j.content| + CHUNK_SIZE - 1) / CHUNK_SIZE;
    3 * (128 + |j.name| + |j.device| + |j.content| + HEADER_SIZE * chunks) + 3 * 45 + 2
  }

  lemma {:induction false} ChunkBytes(j: Job, position: nat)
    requires Boundary(j, position)
    ensures |StreamBytes(Sent(j, position))| == position + HEADER_SIZE * |Sent(j, position)|
    decreases position
  {
    hide Boundary, ChunkStart, FrameBytes, StreamBytes;
    EmptyStream();
    if position == 0 {
    } else {
      var start := ChunkStart(position);
      BoundaryBefore(j, position);
      ChunkBytes(j, start);
      StreamConcat(Sent(j, start), [ChunkFrame(j, start)]);
      StreamOfTwo(ChunkFrame(j, start), ChunkFrame(j, start));
    }
  }

  lemma ScriptLength(j: Job)
    ensures 3 * |Script(j)| + 3 * 45 + 2 == Horizon(j)
  {
    hide FrameBytes, Sent, StreamBytes, Boundary;
    var n := |j.content|;
    assert Boundary(j, 0) && Boundary(j, n) by { EdgesAreBoundaries(j); }
    ChunksAreScript(j, n);
    ChunksFit(j, n);
    ChunkBytes(j, n);
    assert Rest(j, n) == FrameBytes(DoneFrame(j));
  }

  lemma EdgesAreBoundaries(j: Job)
    ensures Boundary(j, 0) && Boundary(j, |j.content|)
  {
  }

  lemma ProgressBounded(sha: Hash, disk: map<Text, Text>, w: World, i: nat)
    requires WorldInv(sha, disk, w) && Smooth(w, i)
    ensures Progress(w, i) <= Horizon(w.sessions[i].peer.sender.job)
  {
    hide Link, FreshNames, Added, Settled, Script, Rest, FrameBytes, OfferBytes, OfferOf, OwnLog, ReplyScript, HeaderAt, Seal,
         Horizon;
    var s := w.sessions[i];
    EachSession(sha, disk, w, i);
    WrittenPrefix(s);
    AcceptReply(s.id, s.acked);
    NoReply(s.id, s.acked);
    ScriptLength(s.peer.sender.job);
  }

  // ------------------------------------------------------------------ each clean step makes progress

  lemma StepWrites(p: Sender, e: Event)
    requires Sane(p) && Ready(p, e) && (e == Shaken(true) || e == Written(true))
    ensures Step(p, e).out != [] && !Step(p, e).sender.phase.Finished?
  {
    hide OfferFrame, ChunkFrame, DoneFrame, HeaderBytes;
  }

  /** The answers of this program's receiver that are not a reject take the sender along the good path. */
  lemma OwnAnswersAreExpected(sha: Hash, s: Session, data: Text)
    requires SessionInv(sha, s) && SenderEnabled(s, Got(data)) && !s.decision.Rejected?
    ensures var phase := s.peer.sender.phase;
            && data != []
            && (|| (phase.AwaitReply? && ParseHeader(data).value.msgType == TRANSFER_ACCEPT && ParseHeader(data).value.payloadLen == 0)
                || (phase.AwaitAck? && ParseHeader(data).value.msgType == TRANSFER_ACK)
                || (phase.AwaitAckPayload? && data[0] == 1 && s.acked == Some(true)))
  {
    hide Script, Rest, FrameBytes, OfferBytes, OfferOf, HeaderAt, ParseHeader, ReplyScript, Crc32.Crc, Follows;
    SenderPhases(sha, s);
    if |data| == HEADER_SIZE {
      FrontHeader(s.down, data);
    }
    NoReply(s.id, s.acked);
    AcceptReply(s.id, s.acked);
    AckReply(s.id, true);
    if s.peer.sender.phase.AwaitAckPayload? {
      assert data[0] == s.down.written[44..][0];
    } else if s.peer.sender.phase.AwaitAck? {
      AckWaiting(sha, s);
    }
  }

  lemma SenderStepsOn(sha: Hash, s: Session, e: Event)
    requires SessionInv(sha, s) && SenderEnabled(s, e) && s.peer.Own?
    requires e == Shaken(true) || e == Written(true) || e.Got?
    requires !s.decision.Rejected?
    ensures var t := SenderApply(s, e);
            && Traffic(t.up) + Traffic(t.down) > Traffic(s.up) + Traffic(s.down)
            && (t.peer.sender.phase.Finished? ==> t.peer.sender.reports == [true] && s.acked == Some(true))
            && t.up.live == s.up.live && t.down.live == s.down.live
  {
    NothingReported(sha, s, e);
    hide SessionInv, FrameBytes, ParseHeader, OfferFrame, ChunkFrame, DoneFrame, Boundary, ChunkLength;
    if e.Got? {
      OwnAnswersAreExpected(sha, s, e.data);
    } else {
      StepWrites(s.peer.sender, e);
    }
  }

  lemma NothingReported(sha: Hash, s: Session, e: Event)
    requires SessionInv(sha, s) && SenderEnabled(s, e)
    ensures s.peer.sender.reports == []
  {
    hide Script, Rest, FrameBytes, OfferOf, ReplyScript, ParseHeader, Follows;
  }

  /** The messages of a sender of this program take the receiver along the good path. */
  lemma OwnMessagesAreExpected(sha: Hash, r: Receiver, s: Session, data: Text)
    requires SessionInv(sha, s) && Link(r, s) && s.peer.Own? && s.up.CanRead(|data|) && data == s.up.Front(|data|)
    requires |OfferBytes(OfferOf(s.peer.sender.job))| <= CHUNK_SIZE && |data| == HEADER_SIZE
    requires ParseHeader(data).Some?
    ensures var h := ParseHeader(data).value;
            && (r.phase.AwaitOffer? ==> h.msgType == TRANSFER_OFFER && h.payloadLen <= CHUNK_SIZE)
            && (r.phase.AwaitChunk? ==> h.msgType == DATA_CHUNK || h.msgType == TRANSFER_DONE)
  {
    hide SessionInv, Script, Rest, FrameBytes, OfferBytes, OfferOf, HeaderAt, ParseHeader, Crc32.Crc;
    if r.phase.AwaitOffer? {
      HeaderFromScript(sha, s, data);
      OfferStart(s.peer.sender.job);
    } else if r.phase.AwaitChunk? {
      OwnChunkHeader(sha, r, s, data);
    }
  }

  lemma ReceiverStepsOn(sha: Hash, r: Receiver, g: Gate, s: Session, e: REvent)
    requires SessionInv(sha, s) && Link(r, s) && ReceiverEnabled(r, g, s, e) && s.peer.Own?
    requires e == RShaken(true) || e == UserAccepts || e == RWritten(true, true) || e.RGot?
    requires |OfferBytes(OfferOf(s.peer.sender.job))| <= CHUNK_SIZE && Known(g, s.certificate)
    requires !r.phase.Rejecting? && !r.phase.Stalled? && !r.phase.Listening?
    ensures var o, t := RStep(sha, r, e), ReceiverApply(sha, r, g, s, e);
            && Traffic(t.up) + Traffic(t.down) + Rank(o.receiver.phase) > Traffic(s.up) + Traffic(s.down) + Rank(r.phase)
            && !o.receiver.phase.Stalled? && !o.receiver.phase.Rejecting?
            && t.decision == (if e.UserAccepts? then Accepted else s.decision)
            && t.down.live == s.down.live && (!o.receiver.phase.Listening? ==> t.up.live == s.up.live)
            && (o.receiver.phase.Listening? ==> t.acked.Some?)
  {
    hide SessionInv, Link, OfferBytes, OfferOf, ParseHeader, ParseOffer, ResolvedName, HeaderBytes, Known, Flat;
    if e.RGot? && (r.phase.AwaitOffer? || r.phase.AwaitChunk?) {
      OwnMessagesAreExpected(sha, r, s, e.data);
    }
    if r.phase.AwaitOfferPayload? || r.phase.AwaitChunkPayload? {
      OwnLengths(sha, r, s);
    }
  }

  lemma OwnLengths(sha: Hash, r: Receiver, s: Session)
    requires Link(r, s) && s.peer.Own? && (r.phase.AwaitOfferPayload? || r.phase.AwaitChunkPayload?)
    ensures r.phase.len > 0
  {
    hide Script, Rest, FrameBytes;
  }

  lemma Current(sha: Hash, disk: map<Text, Text>, w: World, i: nat)
    requires WorldInv(sha, disk, w) && Smooth(w, i)
    ensures var s := w.sessions[i];
            && RSane(w.receiver) && SessionInv(sha, s) && s.up.Valid() && s.down.Valid() && Sane(s.peer.sender)
            && (Serving(w, i) ==> Link(w.receiver, s) && s.acked.None?)
  {
    hide Link, FreshNames, Added, Settled, Known, OfferBytes, OfferOf, SenderAligned, ReplyScript, OwnLog;
    EachSession(sha, disk, w, i);
    SaneSender(sha, w.sessions[i]);
    if Serving(w, i) {
      LinkIsUnacked(w.receiver, w.sessions[i]);
    }
  }

  /** The transfer in session `i` is still the same and still smooth. */
  predicate StaysSmooth(w: World, v: World, i: nat) {
    && i < |w.sessions| && i < |v.sessions| && w.sessions[i].peer.Own? && Smooth(v, i)
    && v.sessions[i].peer.sender.job == w.sessions[i].peer.sender.job
  }

  /** What a clean action does to the transfer. */
  predicate MovesOn(w: World, v: World, i: nat) {
    StaysSmooth(w, v, i) && Progress(v, i) > Progress(w, i)
  }

  lemma CleanSenderStep(sha: Hash, disk: map<Text, Text>, w: World, i: nat, e: Event)
    requires WorldInv(sha, disk, w) && Smooth(w, i) && Enabled(sha, w, SenderAct(i, e)) && Clean(w, i, SenderAct(i, e))
    ensures MovesOn(w, Apply(sha, w, SenderAct(i, e)), i)
  {
    hide WorldInv, SessionInv, Link, SenderApply, OfferOf, OfferBytes, SenderEnabled, Known;
    var s := w.sessions[i];
    Current(sha, disk, w, i);
    SenderStepsOn(sha, s, e);
    SenderKeeps(sha, s, e);
  }

  lemma CleanReceiverStep(sha: Hash, disk: map<Text, Text>, w: World, i: nat, e: REvent)
    requires WorldInv(sha, disk, w) && Smooth(w, i) && Enabled(sha, w, ReceiverAct(e)) && Clean(w, i, ReceiverAct(e))
    ensures MovesOn(w, Apply(sha, w, ReceiverAct(e)), i)
  {
    hide WorldInv, SessionInv, Link, ReceiverApply, RStep, OfferOf, OfferBytes, ReceiverEnabled, FingerprintText, GateAfter,
         Traffic, Rank;
    var s := w.sessions[i];
    var v := Apply(sha, w, ReceiverAct(e));
    Current(sha, disk, w, i);
    GateHolds(sha, disk, w);
    ReceiverStepsOn(sha, w.receiver, w.gate, s, e);
    RaisesOnlyTrusted(sha, w, e);
    SamePeer(sha, w, e);
    ReceiverActKeeps(sha, disk, w, e);
    EachSession(sha, disk, v, i);
    OwnAckIsTrue(sha, v.sessions[i]);
    ListeningIsLast(v.receiver.phase);
  }

  lemma ListeningIsLast(phase: RPhase)
    ensures phase.Listening? ==> Rank(phase) == 2
  {
  }

  lemma CleanDelivery(sha: Hash, w: World, i: nat, a: Action)
    requires Smooth(w, i) && Enabled(sha, w, a) && Clean(w, i, a) && (a.DeliverUp? || a.DeliverDown?)
    ensures MovesOn(w, Apply(sha, w, a), i)
  {
    hide OfferOf, OfferBytes, Known;
  }

  /** A clean action keeps the transfer smooth and moves it on. */
  lemma CleanStepProgresses(sha: Hash, disk: map<Text, Text>, w: World, i: nat, a: Action)
    requires WorldInv(sha, disk, w) && Smooth(w, i) && Enabled(sha, w, a) && Clean(w, i, a)
    ensures WorldInv(sha, disk, Apply(sha, w, a)) && MovesOn(w, Apply(sha, w, a), i)
  {
    hide WorldInv, Smooth, Enabled, Apply, MovesOn;
    ActionKeeps(sha, disk, w, a);
    match a
    case SenderAct(_, e) => CleanSenderStep(sha, disk, w, i, e);
    case ReceiverAct(e) => CleanReceiverStep(sha, disk, w, i, e);
    case DeliverUp(_, _) => CleanDelivery(sha, w, i, a);
    case DeliverDown(_, _) => CleanDelivery(sha, w, i, a);
  }

  /** What happens elsewhere leaves the session and its progress alone. */
  lemma ElsewhereKeeps(sha: Hash, w: World, i: nat, a: Action)
    requires Smooth(w, i) && Enabled(sha, w, a) && Elsewhere(w, i, a)
    ensures var v := Apply(sha, w, a);
            StaysSmooth(w, v, i) && v.sessions[i] == w.sessions[i] && Progress(v, i) == Progress(w, i)
  {
    hide OfferOf, OfferBytes, RStep, SenderApply, SenderEnabled, ReceiverApply, ReceiverEnabled, FingerprintText, Traffic,
         ParseOffer;
    if a.AcceptFails? {
      StillListening(sha, w.receiver);
    }
  }

  lemma LinkIsUnacked(r: Receiver, s: Session)
    requires Link(r, s)
    ensures s.acked.None?
  {
  }

  lemma SamePeer(sha: Hash, w: World, e: REvent)
    requires Enabled(sha, w, ReceiverAct(e))
    ensures ReceiverApply(sha, w.receiver, w.gate, w.sessions[|w.sessions| - 1], e).peer == w.sessions[|w.sessions| - 1].peer
  {
    hide RStep;
  }

  lemma OwnAckIsTrue(sha: Hash, s: Session)
    requires SessionInv(sha, s) && s.peer.Own?
    ensures s.acked.Some? ==> s.acked == Some(true)
  {
    hide SenderAligned, Script, ReplyScript, OfferOf;
  }

  // ------------------------------------------------------------------ clean runs do not get stuck

  /** A sender that waits for bytes which the receiver has written can read them or have them delivered. */
  lemma SenderMoves(sha: Hash, disk: map<Text, Text>, w: World, i: nat, n: nat) returns (a: Action)
    requires WorldInv(sha, disk, w) && Smooth(w, i)
    requires var s := w.sessions[i];
             && Wanted(s.peer.sender.phase) == Some(n) && s.down.read + n <= |s.down.written|
    ensures Enabled(sha, w, a) && Clean(w, i, a)
  {
    hide WorldInv, Link, OfferOf, OfferBytes, Known, SessionInv;
    var s := w.sessions[i];
    Current(sha, disk, w, i);
    if s.down.CanRead(n) {
      SenderCanDecode(sha, s, n);
      hide Ready;
      a := SenderAct(i, Got(s.down.Front(n)));
    } else {
      a := DeliverDown(i, |s.down.written| - s.down.delivered);
    }
  }

  lemma SaneSender(sha: Hash, s: Session)
    requires SessionInv(sha, s) && s.peer.Own?
    ensures Sane(s.peer.sender)
  {
    hide Script, Rest, ReplyScript, OfferOf, FrameBytes;
  }

  /** A receiver that waits for bytes which the sender has written can read them or have them delivered. */
  lemma ReceiverMoves(sha: Hash, disk: map<Text, Text>, w: World, i: nat, n: nat) returns (a: Action)
    requires WorldInv(sha, disk, w) && Smooth(w, i) && Serving(w, i)
    requires var s := w.sessions[i];
             && RWanted(w.receiver.phase) == Some(n) && s.up.read + n <= |s.up.written|
    ensures Enabled(sha, w, a) && Clean(w, i, a)
  {
    hide WorldInv, OfferOf, OfferBytes, SessionInv, Decodable, Link, FingerprintText;
    var s := w.sessions[i];
    Current(sha, disk, w, i);
    if s.up.CanRead(n) {
      ReceiverCanDecode(sha, w.receiver, s, n);
      a := ReceiverAct(RGot(s.up.Front(n), Trusted(w.gate, s)));
    } else {
      a := DeliverUp(i, |s.up.written| - s.up.delivered);
    }
  }

  /** What the receiver waits for is within what a sender past its offer has written or will write. */
  lemma ReceiverIsFed(sha: Hash, r: Receiver, s: Session, n: nat)
    requires SessionInv(sha, s) && Link(r, s) && s.peer.Own? && RWanted(r.phase) == Some(n)
    requires s.peer.sender.phase.AwaitReply? || s.peer.sender.phase.AwaitAck?
    ensures || s.up.read + n <= |s.up.written|
            || (s.peer.sender.phase.AwaitReply? && s.decision.Accepted?)
  {
    hide Script, Rest, ReplyScript, OfferOf, HeaderAt, Seal, Follows, OfferBytes;
    var j := s.peer.sender.job;
    OfferStart(j);
    if r.phase.AwaitChunk? && s.peer.sender.phase.AwaitAck? {
      assert |Script(j)[s.up.read..]| >= 54;
    }
    if r.phase.AwaitChunkPayload? && s.peer.sender.phase.AwaitAck? {
      assert |Script(j)[s.up.read..]| >= n;
    }
  }

  lemma SenderPhases(sha: Hash, s: Session)
    requires SessionInv(sha, s) && s.peer.Own? && !s.decision.Rejected?
    ensures var phase := s.peer.sender.phase;
            || phase.Handshaking? || phase.AwaitReply? || phase.Writing? || phase.AwaitAck? || phase.Finished?
            || (phase.AwaitAckPayload? && s.acked == Some(true) && Wanted(phase) == Some(1) && s.down.read == 44)
    ensures s.peer.sender.phase.AwaitReply? ==> s.down.read == 0
    ensures s.peer.sender.phase.AwaitAck? ==> s.down.read == 22
    ensures s.decision.Accepted? ==> |s.down.written| == if s.acked.Some? then 45 else 22
    ensures s.acked.Some? ==> s.decision.Accepted? && s.reports != [] && s.reports[0].ok == s.acked.value
    ensures s.acked.Some? ==>
              s.peer.sender.phase.AwaitAck? || s.peer.sender.phase.AwaitAckPayload? || s.peer.sender.phase.Finished?
  {
    hide Script, Rest, ReplyScript, OfferOf, FrameBytes, HeaderAt, Seal, Follows;
    AcceptReply(s.id, s.acked);
    WrittenPrefix(s);
  }

  /** Until both sides have reported success, some clean action is possible. */
  lemma CleanStepExists(sha: Hash, disk: map<Text, Text>, w: World, i: nat) returns (a: Action)
    requires WorldInv(sha, disk, w) && Smooth(w, i) && !BothSucceeded(w, i)
    ensures Enabled(sha, w, a) && Clean(w, i, a)
  {
    hide WorldInv, SessionInv, OfferOf, OfferBytes, Known, Link;
    var r, s := w.receiver, w.sessions[i];
    var phase := s.peer.sender.phase;
    Current(sha, disk, w, i);
    SenderPhases(sha, s);
    if phase.Handshaking? {
      a := SenderAct(i, Shaken(true));
    } else if phase.Writing? {
      a := SenderAct(i, Written(true));
    } else if !Serving(w, i) {
      a := SenderMoves(sha, disk, w, i, Wanted(phase).value);
    } else if r.phase.Greeting? {
      a := ReceiverAct(RShaken(true));
    } else if r.phase.Deciding? {
      a := ReceiverAct(UserAccepts);
    } else if r.phase.Accepting? {
      a := ReceiverAct(RWritten(true, true));
    } else {
      var n := RWanted(r.phase).value;
      ReceiverIsFed(sha, r, s, n);
      if s.up.read + n <= |s.up.written| {
        a := ReceiverMoves(sha, disk, w, i, n);
      } else {
        a := SenderMoves(sha, disk, w, i, HEADER_SIZE);
      }
    }
  }

  // ------------------------------------------------------------------ whole runs

  /** A run in which session `i` sees clean actions only; anything may happen elsewhere. */
  ghost predicate SmoothRun(sha: Hash, run: seq<World>, actions: seq<Action>, i: nat) {
    && IsRun(sha, run, actions)
    && forall k :: 0 <= k < |actions| ==> Clean(run[k], i, actions[k]) || Elsewhere(run[k], i, actions[k])
  }

  /** How many of the first `k` actions are steps of session `i`. */
  function CleanSteps(run: seq<World>, actions: seq<Action>, i: nat, k: nat): nat
    requires k <= |actions| <= |run|
  {
    if k == 0 then 0
    else CleanSteps(run, actions, i, k - 1) + if Clean(run[k - 1], i, actions[k - 1]) then 1 else 0
  }

  function JobOf(w: World, i: nat): Job
    requires Smooth(w, i)
  {
    w.sessions[i].peer.sender.job
  }

  /** One action of a smooth run, whichever kind it is. */
  lemma SmoothStep(sha: Hash, disk: map<Text, Text>, w: World, i: nat, a: Action)
    requires WorldInv(sha, disk, w) && Smooth(w, i) && Enabled(sha, w, a) && (Clean(w, i, a) || Elsewhere(w, i, a))
    ensures var v := Apply(sha, w, a);
            && WorldInv(sha, disk, v) && StaysSmooth(w, v, i)
            && Progress(v, i) >= Progress(w, i) + if Clean(w, i, a) then 1 else 0
  {
    hide WorldInv, Smooth, Enabled, Apply, Clean, Elsewhere, Progress;
    ActionKeeps(sha, disk, w, a);
    if Clean(w, i, a) {
      CleanStepProgresses(sha, disk, w, i, a);
    } else {
      ElsewhereKeeps(sha, w, i, a);
    }
  }

  lemma {:induction false} SmoothRunProgresses(sha: Hash, disk: map<Text, Text>, run: seq<World>, actions: seq<Action>, i: nat, k: nat)
    requires SmoothRun(sha, run, actions, i) && WorldInv(sha, disk, run[0]) && Smooth(run[0], i) && k < |run|
    ensures WorldInv(sha, disk, run[k]) && Smooth(run[k], i) && JobOf(run[k], i) == JobOf(run[0], i)
    ensures i < |run[0].sessions| && i < |run[k].sessions|
    ensures Progress(run[k], i) >= Progress(run[0], i) + CleanSteps(run, actions, i, k)
  {
    hide WorldInv, Smooth, Enabled, Apply, Clean, Elsewhere, Progress;
    SmoothHasSession(run[0], i);
    if k == 0 {
    } else {
      SmoothRunProgresses(sha, disk, run, actions, i, k - 1);
      SmoothStep(sha, disk, run[k - 1], i, actions[k - 1]);
    }
  }

  /** A trusted sender whose offer fits the buffer has just connected, as session `i`. */
  predicate JustDialed(w: World, i: nat, job: Job) {
    i == |w.sessions| - 1 &&
    var s := w.sessions[i];
    && s == NewSession(Own(Initial(job).(phase := Sending.Handshaking)), s.certificate)
    && w.receiver.phase.Greeting? && Known(w.gate, s.certificate) && |OfferBytes(OfferOf(job))| <= CHUNK_SIZE
  }

  /** An error-free accepted transfer takes a bounded number of steps, whatever the file size, however
      delivery is cut, and whatever earlier and later sessions do meanwhile. */
  lemma CleanRunsEnd(sha: Hash, disk: map<Text, Text>, run: seq<World>, actions: seq<Action>, i: nat, job: Job)
    requires SmoothRun(sha, run, actions, i) && Reachable(sha, disk, run[0]) && JustDialed(run[0], i, job)
    ensures CleanSteps(run, actions, i, |actions|) <= Horizon(job)
  {
    hide WorldInv, Reachable, Enabled, Apply, Clean, Elsewhere, Known, OfferBytes, OfferOf, Script, Horizon;
    ReachableInv(sha, disk, run[0]);
    SmoothRunProgresses(sha, disk, run, actions, i, |actions|);
    ProgressBounded(sha, disk, run[|actions|], i);
  }

  /** When no step of an error-free accepted transfer is left, both sides have reported success, the
      file is stored, and the sender has written exactly one offer, one chunk per 32746 bytes or part
      of them, and one done message, whatever else happened meanwhile. */
  lemma CleanRunsSucceed(sha: Hash, disk: map<Text, Text>, run: seq<World>, actions: seq<Action>, i: nat, job: Job)
    requires SmoothRun(sha, run, actions, i) && Reachable(sha, disk, run[0]) && JustDialed(run[0], i, job)
    requires forall a :: !(Enabled(sha, run[|actions|], a) && Clean(run[|actions|], i, a))
    ensures var w := run[|actions|];
            && BothSucceeded(w, i)
            && var s := w.sessions[i];
            && s.reports[0].path in w.receiver.files && w.receiver.files[s.reports[0].path] == job.content
            && ReadAll(s.up.written) == Reading([OfferFrame(job)] + Sent(job, |job.content|) + [DoneFrame(job)], [])
            && |Sent(job, |job.content|)| == (|job.content| + 32745) / 32746
            && s.peer.sender.bytesSent == |job.content|
  {
    hide WorldInv, Reachable, Enabled, Apply, Clean, Elsewhere, Known, OfferBytes, OfferOf, Script, Sent;
    ReachableInv(sha, disk, run[0]);
    SmoothRunProgresses(sha, disk, run, actions, i, |actions|);
    var w := run[|actions|];
    if !BothSucceeded(w, i) {
      var a := CleanStepExists(sha, disk, w, i);
      assert false;
    }
    FinalState(sha, disk, w, i, job);
    ChunksFit(job, |job.content|);
  }

  lemma FinalState(sha: Hash, disk: map<Text, Text>, w: World, i: nat, job: Job)
    requires WorldInv(sha, disk, w) && Smooth(w, i) && BothSucceeded(w, i) && JobOf(w, i) == job
    ensures var s := w.sessions[i];
            && s.reports[0].path in w.receiver.files && w.receiver.files[s.reports[0].path] == job.content
            && ReadAll(s.up.written) == Reading([OfferFrame(job)] + Sent(job, |job.content|) + [DoneFrame(job)], [])
            && s.peer.sender.bytesSent == |job.content|
  {
    hide Link, FreshNames, Added, Settled, OfferOf, OfferBytes, ReplyScript, FrameBytes, Script, Rest, Sent, ReadAll,
         StreamBytes, ReadFrame;
    var s := w.sessions[i];
    EachSession(sha, disk, w, i);
    StoredFile(sha, disk, w, i);
    ScriptIsStream(job);
    UniqueFraming([OfferFrame(job)] + Sent(job, |job.content|) + [DoneFrame(job)], []);
    NothingToRead();
    assert s.up.written + [] == s.up.written;
  }

  /** From every state of an error-free accepted transfer some run of its own steps leads to success. */
  lemma {:induction false} FinishFrom(sha: Hash, disk: map<Text, Text>, w: World, i: nat)
      returns (run: seq<World>, actions: seq<Action>)
    requires WorldInv(sha, disk, w) && Smooth(w, i)
    ensures SmoothRun(sha, run, actions, i) && run[0] == w && BothSucceeded(run[|actions|], i)
    ensures CleanSteps(run, actions, i, |actions|) == |actions|
    decreases Horizon(JobOf(w, i)) - Progress(w, i)
  {
    hide WorldInv, Smooth, Enabled, Apply, Clean, Elsewhere, BothSucceeded, Progress, Horizon;
    SmoothHasSession(w, i);
    if BothSucceeded(w, i) {
      run, actions := [w], [];
    } else {
      var a := CleanStepExists(sha, disk, w, i);
      var v := Apply(sha, w, a);
      CleanStepProgresses(sha, disk, w, i, a);
      ProgressBounded(sha, disk, w, i);
      ProgressBounded(sha, disk, v, i);
      var rest, more := FinishFrom(sha, disk, v, i);
      run, actions := [w] + rest, [a] + more;
      PrependStep(sha, w, i, a, rest, more);
      PrependCount(w, i, a, rest, more, |more|);
    }
  }

  lemma SmoothHasSession(w: World, i: nat)
    requires Smooth(w, i)
    ensures i < |w.sessions|
  {
  }

  lemma PrependStep(sha: Hash, w: World, i: nat, a: Action, rest: seq<World>, more: seq<Action>)
    requires SmoothRun(sha, rest, more, i) && Enabled(sha, w, a) && Clean(w, i, a) && rest[0] == Apply(sha, w, a)
    ensures SmoothRun(sha, [w] + rest, [a] + more, i)
  {
    hide Enabled, Apply, Clean, Elsewhere;
    var run, actions := [w] + rest, [a] + more;
    forall k | 0 <= k < |actions|
      ensures Enabled(sha, run[k], actions[k]) && run[k + 1] == Apply(sha, run[k], actions[k])
      ensures Clean(run[k], i, actions[k]) || Elsewhere(run[k], i, actions[k])
    {
      if k > 0 {
        assert run[k] == rest[k - 1] && actions[k] == more[k - 1] && run[k + 1] == rest[k];
      }
    }
  }

  lemma {:induction false} PrependCount(w: World, i: nat, a: Action, rest: seq<World>, more: seq<Action>, k: nat)
    requires k <= |more| <= |rest| && Clean(w, i, a)
    ensures CleanSteps([w] + rest, [a] + more, i, k + 1) == CleanSteps(rest, more, i, k) + 1
  {
    hide Clean;
    var run, actions := [w] + rest, [a] + more;
    if k == 0 {
      assert CleanSteps(run, actions, i, 0) == 0;
    } else {
      PrependCount(w, i, a, rest, more, k - 1);
      assert run[k] == rest[k - 1] && actions[k] == more[k - 1];
    }
  }

  /** Success is within reach for every trusted sender whose offer fits the buffer, by steps of its own
      session alone. */
  lemma SuccessIsReachable(sha: Hash, disk: map<Text, Text>, w: World, i: nat, job: Job)
      returns (run: seq<World>, actions: seq<Action>)
    requires Reachable(sha, disk, w) && JustDialed(w, i, job)
    ensures SmoothRun(sha, run, actions, i) && run[0] == w && BothSucceeded(run[|actions|], i)
    ensures CleanSteps(run, actions, i, |actions|) == |actions|
  {
    hide WorldInv, Reachable, Enabled, Apply, Clean, Elsewhere, Known, OfferBytes, OfferOf, BothSucceeded;
    ReachableInv(sha, disk, w);
    run, actions := FinishFrom(sha, disk, w, i);
  }
}
