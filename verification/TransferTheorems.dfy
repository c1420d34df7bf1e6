/** The promises of a transfer, for every run of the joint system. */
module TransferTheorems {
  import opened Bytes
  import opened Header
  import opened Payloads
  import opened Framing
  import opened Files
  import opened Sending
  import opened Receiving
  import opened Trust
  import opened Transfers
  import opened SessionInvariant
  import opened TransferSafety

  // ------------------------------------------------------------------ files

  lemma SettledInFolder(r: Receiver, p: Text)
    requires p in Settled(r)
    ensures p in r.files && r.files[p] == Settled(r)[p]
  {
  }

  lemma StoredFile(sha: Hash, disk: map<Text, Text>, w: World, i: nat)
    requires WorldInv(sha, disk, w) && i < |w.sessions| && w.sessions[i].acked == Some(true)
    ensures w.sessions[i].reports != []
    ensures var p := w.sessions[i].reports[0].path;
            p !in disk && p in w.receiver.files && w.receiver.files[p] == w.sessions[i].received
  {
    hide OwnInv, ReplyScript, Link, Added, FreshNames, Settled;
    AddedHas(disk, w.sessions, i);
    SettledInFolder(w.receiver, w.sessions[i].reports[0].path);
  }

  /** If the sender reports success, the receiver reported success for the same session and its
      folder holds a new file that equals the sender's file byte for byte. */
  lemma SuccessMeansStored(sha: Hash, disk: map<Text, Text>, w: World, i: nat)
    requires Reachable(sha, disk, w) && i < |w.sessions| && w.sessions[i].peer.Own?
    requires true in w.sessions[i].peer.sender.reports
    ensures var s := w.sessions[i];
            && |s.reports| == 1 && s.reports[0].ok
            && s.reports[0].path !in disk && s.reports[0].path in w.receiver.files
            && w.receiver.files[s.reports[0].path] == s.peer.sender.job.content
  {
    hide WorldInv, Reachable, Script, Rest, FrameBytes, OfferOf, ReplyScript, OfferFrame;
    ReachableInv(sha, disk, w);
    var s := w.sessions[i];
    EachSession(sha, disk, w, i);
    assert s.peer.sender.reports == [true];
    StoredFile(sha, disk, w, i);
  }

  lemma EachSession(sha: Hash, disk: map<Text, Text>, w: World, i: nat)
    requires WorldInv(sha, disk, w) && i < |w.sessions|
    ensures SessionInv(sha, w.sessions[i])
    ensures w.sessions[i].raised.Some? ==> Known(w.gate, w.sessions[i].certificate)
    ensures i < |w.sessions| - 1 || w.receiver.phase.Listening? ==> w.sessions[i].down.closed
  {
    hide SessionInv, Known;
  }

  /** The converse fails only through a lost acknowledgement: once the receiver has reported
      success the file is complete, and the sender either reports success too, or still waits for
      the acknowledgement, or was cut off from it. */
  lemma StoredMeansSuccessOrLostAck(sha: Hash, disk: map<Text, Text>, w: World, i: nat)
    requires Reachable(sha, disk, w) && i < |w.sessions| && w.sessions[i].peer.Own?
    requires w.sessions[i].reports != [] && w.sessions[i].reports[0].ok
    ensures var s := w.sessions[i];
            && s.reports[0].path in w.receiver.files
            && w.receiver.files[s.reports[0].path] == s.peer.sender.job.content
            && (s.peer.sender.phase.Finished?
                ==> s.peer.sender.reports == [true] || (s.peer.sender.reports == [false] && !s.down.live))
            && (!s.peer.sender.phase.Finished?
                ==> s.peer.sender.phase.AwaitAck? || s.peer.sender.phase.AwaitAckPayload?)
  {
    hide WorldInv, Reachable, Script, Rest, FrameBytes, OfferOf, ReplyScript, OfferFrame, Follows;
    ReachableInv(sha, disk, w);
    EachSession(sha, disk, w, i);
    StoredFile(sha, disk, w, i);
    WrittenPrefix(w.sessions[i]);
    var reports := w.sessions[i].peer.sender.reports;
    if |reports| == 1 {
      assert reports == [reports[0]] && (reports == [true] <==> reports[0]);
    }
  }

  /** A session that left `content` in the folder under `name`, as its own offer announced. */
  ghost predicate Announced(sha: Hash, s: Session, name: Text, content: Text) {
    && s.decision.Accepted? && s.reports == [Report(true, name)] && s.received == content
    && s.raised.Some? && sha(content) == s.raised.value.sha256
  }

  /** In every reachable state the folder's own files are untouched, and every other file, except the
      one that is being received, is the complete result of one accepted session with the announced
      hash: sessions that failed, were rejected or were cut leave nothing behind. While the receiver
      listens, no file is being received. */
  lemma FolderIsClean(sha: Hash, disk: map<Text, Text>, w: World)
    requires Reachable(sha, disk, w)
    ensures w.receiver.phase.Listening? ==> !w.receiver.fileOpen
    ensures w.receiver.fileOpen ==> w.receiver.filePath !in disk
    ensures forall n :: n in disk ==> n in w.receiver.files && w.receiver.files[n] == disk[n]
    ensures forall n :: n in w.receiver.files && n !in disk && !(w.receiver.fileOpen && n == w.receiver.filePath) ==>
              exists i :: 0 <= i < |w.sessions| && Announced(sha, w.sessions[i], n, w.receiver.files[n])
    ensures forall i :: 0 <= i < |w.sessions| && w.sessions[i].reports != [] && w.sessions[i].reports[0].ok ==>
              Announced(sha, w.sessions[i], w.sessions[i].reports[0].path, w.sessions[i].received) &&
              w.sessions[i].reports[0].path in w.receiver.files &&
              w.receiver.files[w.sessions[i].reports[0].path] == w.sessions[i].received
  {
    hide Reachable, OwnInv, ReplyScript, Link, Added, FreshNames;
    ReachableInv(sha, disk, w);
    forall n | n in disk ensures n in Settled(w.receiver) && Settled(w.receiver)[n] == disk[n] {
      OriginalKept(disk, w.sessions, n);
    }
    forall n | n in Settled(w.receiver) && n !in disk
      ensures exists i :: 0 <= i < |w.sessions| && Announced(sha, w.sessions[i], n, w.receiver.files[n])
    {
      var i := AddedFrom(w.sessions, n);
      var s := w.sessions[i];
      assert s.reports == [Report(true, n)];
      assert Announced(sha, s, n, w.receiver.files[n]);
    }
    forall i | 0 <= i < |w.sessions| && w.sessions[i].reports != [] && w.sessions[i].reports[0].ok
      ensures Announced(sha, w.sessions[i], w.sessions[i].reports[0].path, w.sessions[i].received) &&
              w.sessions[i].reports[0].path in w.receiver.files &&
              w.receiver.files[w.sessions[i].reports[0].path] == w.sessions[i].received
    {
      var s := w.sessions[i];
      StoredFile(sha, disk, w, i);
      assert s.reports == [Report(true, s.reports[0].path)];
    }
  }

  lemma OriginalKept(disk: map<Text, Text>, ss: seq<Session>, n: Text)
    requires FreshNames(disk, ss) && n in disk
    ensures n !in Added(ss)
  {
    if n in Added(ss) {
      var i := AddedFrom(ss, n);
      AddedHas(disk, ss, i);
    }
  }

  // ------------------------------------------------------------------ reports and ids

  /** Both sides report at most once: the sender exactly when it has finished; the receiver only for an
      offer that was raised and accepted, and for each of those exactly once by the time it has moved on. */
  lemma ReportsAtMostOnce(sha: Hash, disk: map<Text, Text>, w: World, i: nat)
    requires Reachable(sha, disk, w) && i < |w.sessions|
    ensures var s := w.sessions[i];
            && |s.reports| <= 1
            && (s.reports != [] ==> s.decision.Accepted? && s.raised.Some?)
            && (s.decision.Accepted? && (i < |w.sessions| - 1 || w.receiver.phase.Listening?) ==> |s.reports| == 1)
            && (s.peer.Own? ==> |s.peer.sender.reports| == if s.peer.sender.phase.Finished? then 1 else 0)
  {
    hide WorldInv, Reachable, Script, Rest, FrameBytes, OfferOf, ReplyScript, OfferFrame, Follows;
    ReachableInv(sha, disk, w);
    EachSession(sha, disk, w, i);
  }

  /** An offer is raised only for a certificate in the trust store, in every state after it. */
  lemma OffersAreTrusted(sha: Hash, disk: map<Text, Text>, w: World, i: nat)
    requires Reachable(sha, disk, w) && i < |w.sessions| && w.sessions[i].raised.Some?
    ensures w.sessions[i].certificate.Some?
    ensures FingerprintText(w.sessions[i].certificate.value) in w.gate.store
    ensures GateInv(w.gate)
  {
    hide WorldInv, Reachable, SessionInv;
    ReachableInv(sha, disk, w);
    EachSession(sha, disk, w, i);
    GateHolds(sha, disk, w);
  }

  lemma GateHolds(sha: Hash, disk: map<Text, Text>, w: World)
    requires WorldInv(sha, disk, w)
    ensures GateInv(w.gate)
  {
    hide SessionInv, Link;
  }

  /** What the user of the receiver sees of a sender of this program is true: the size, the name and the
      hash of the file, the device name of the sender, and no resumed transfer. */
  lemma OffersAreTrue(sha: Hash, disk: map<Text, Text>, w: World, i: nat)
    requires Reachable(sha, disk, w) && i < |w.sessions| && w.sessions[i].peer.Own? && w.sessions[i].raised.Some?
    ensures var j, offer := w.sessions[i].peer.sender.job, w.sessions[i].raised.value;
            && offer.fileSize == |j.content| && offer.resumeOffset == 0
            && offer.sha256 == sha(j.content)
            && offer.fileName == j.name && offer.deviceName == j.device
            && w.sessions[i].id == j.sessionId
  {
    hide WorldInv, Reachable, Script, ReplyScript, SenderAligned;
    ReachableInv(sha, disk, w);
    EachSession(sha, disk, w, i);
  }

  // ------------------------------------------------------------------ frames on the wire

  /** Where the chunk that ends at `position` starts. */
  function ChunkStart(position: nat): nat
    requires position > 0
  {
    ((position - 1) / CHUNK_SIZE) * CHUNK_SIZE
  }

  lemma BoundaryBefore(j: Job, position: nat)
    requires Boundary(j, position) && position > 0
    ensures var start := ChunkStart(position);
            && 0 <= start < position && Boundary(j, start) && start + ChunkLength(j, start) == position
  {
    var q := (position - 1) / CHUNK_SIZE;
    assert (q * CHUNK_SIZE) % CHUNK_SIZE == 0;
    if position < |j.content| {
      assert position == (position / CHUNK_SIZE) * CHUNK_SIZE;
    }
  }

  lemma OneChunkMore(position: nat)
    requires position > 0
    ensures (position + CHUNK_SIZE - 1) / CHUNK_SIZE == (ChunkStart(position) + CHUNK_SIZE - 1) / CHUNK_SIZE + 1
  {
  }

  /** The chunk frames that cover the file up to a boundary. */
  function Sent(j: Job, position: nat): seq<Frame>
    requires Boundary(j, position)
    decreases position
  {
    if position == 0 then [] else
    BoundaryBefore(j, position);
    Sent(j, ChunkStart(position)) + [ChunkFrame(j, ChunkStart(position))]
  }

  /** The data bytes in a list of frames. */
  function DataOf(frames: seq<Frame>): Text {
    if frames == [] then [] else
    var f := frames[|frames| - 1];
    DataOf(frames[..|frames| - 1]) + (if f.msgType == DATA_CHUNK then f.payload else [])
  }

  lemma {:induction false} StreamConcat(a: seq<Frame>, b: seq<Frame>)
    ensures StreamBytes(a + b) == StreamBytes(a) + StreamBytes(b)
  {
    hide FrameBytes;
    if a == [] {
      assert a + b == b;
    } else {
      assert (a + b)[1..] == a[1..] + b;
      StreamConcat(a[1..], b);
    }
  }

  /** As many chunks as the size divided by 32746, rounded up; none empty, none too large for the
      receiver's buffer. */
  lemma {:induction false} ChunksFit(j: Job, position: nat)
    requires Boundary(j, position)
    ensures |Sent(j, position)| == (position + 32745) / 32746
    ensures forall f :: f in Sent(j, position) ==>
              && f.msgType == 0x20 && f.sessionId == j.sessionId && 0 < |f.payload|
              && 22 + |f.payload| <= 32768
    decreases position
  {
    hide Boundary, ChunkStart;
    if position == 0 {
    } else {
      BoundaryBefore(j, position);
      OneChunkMore(position);
      ChunksFit(j, ChunkStart(position));
    }
  }

  /** The chunks together are exactly the file up to `position`. */
  lemma {:induction false} ChunksAreFile(j: Job, position: nat)
    requires Boundary(j, position)
    ensures DataOf(Sent(j, position)) == j.content[..position]
    decreases position
  {
    hide Boundary, ChunkStart;
    if position == 0 {
    } else {
      var start := ChunkStart(position);
      BoundaryBefore(j, position);
      ChunksAreFile(j, start);
      var all := Sent(j, start) + [ChunkFrame(j, start)];
      assert all[..|all| - 1] == Sent(j, start);
    }
  }

  /** The chunks are what the script says up to `position`. */
  lemma {:induction false} ChunksAreScript(j: Job, position: nat)
    requires Boundary(j, position)
    ensures StreamBytes(Sent(j, position)) + Rest(j, position) == Rest(j, 0)
    decreases position
  {
    hide Boundary, ChunkStart, FrameBytes, ChunkFrame;
    if position > 0 {
      var start := ChunkStart(position);
      BoundaryBefore(j, position);
      ChunksAreScript(j, start);
      var front, last := Sent(j, start), ChunkFrame(j, start);
      StreamConcat(front, [last]);
      assert StreamBytes([last]) == FrameBytes(last) + StreamBytes([]);
      assert (StreamBytes(front) + FrameBytes(last)) + Rest(j, position) ==
             StreamBytes(front) + (FrameBytes(last) + Rest(j, position));
    } else {
      assert StreamBytes([]) + Rest(j, 0) == Rest(j, 0);
    }
  }

  /** Everything that the sender has put on the wire, as frames. */
  function SentFrames(s: Session): seq<Frame>
    requires s.peer.Own? && Sane(s.peer.sender)
  {
    var p := s.peer.sender;
    if s.up.written == [] then []
    else if s.up.written == Script(p.job) then [OfferFrame(p.job)] + Sent(p.job, p.position) + [DoneFrame(p.job)]
    else [OfferFrame(p.job)] + Sent(p.job, p.position)
  }

  lemma SentIsStream(j: Job, up: Text, position: nat)
    requires Boundary(j, position) && up + Rest(j, position) == Script(j)
    ensures up == StreamBytes([OfferFrame(j)] + Sent(j, position))
  {
    hide FrameBytes, Rest, Sent;
    ChunksAreScript(j, position);
    var o := FrameBytes(OfferFrame(j));
    StreamConcat([OfferFrame(j)], Sent(j, position));
    assert StreamBytes([OfferFrame(j)]) == o + StreamBytes([]);
    var t := StreamBytes([OfferFrame(j)] + Sent(j, position));
    assert t + Rest(j, position) == o + (StreamBytes(Sent(j, position)) + Rest(j, position));
    assert t == (t + Rest(j, position))[..|Script(j)| - |Rest(j, position)|];
    assert up == (up + Rest(j, position))[..|Script(j)| - |Rest(j, position)|];
  }

  lemma ScriptIsStream(j: Job)
    ensures Script(j) == StreamBytes([OfferFrame(j)] + Sent(j, |j.content|) + [DoneFrame(j)])
  {
    hide FrameBytes, Sent;
    var n := |j.content|;
    var done := FrameBytes(DoneFrame(j));
    assert Rest(j, n) == done;
    ChunksAreScript(j, n);
    var frames := [OfferFrame(j)] + Sent(j, n);
    var up := FrameBytes(OfferFrame(j)) + StreamBytes(Sent(j, n));
    assert up + Rest(j, n) == Script(j);
    SentIsStream(j, up, n);
    StreamConcat(frames, [DoneFrame(j)]);
    assert StreamBytes([DoneFrame(j)]) == done + StreamBytes([]);
  }

  lemma WrittenIsSentFrames(sha: Hash, s: Session)
    requires SessionInv(sha, s) && s.peer.Own?
    ensures Sane(s.peer.sender)
    ensures s.up.written == StreamBytes(SentFrames(s))
    ensures s.up.written == Script(s.peer.sender.job) ==> s.peer.sender.position == |s.peer.sender.job.content|
  {
    hide FrameBytes, Rest, Script, Sent, OfferOf, OfferFrame, DoneFrame, ReplyScript, StreamBytes;
    var p := s.peer.sender;
    var j, up := p.job, s.up.written;
    WrittenPrefix(s);
    ScriptIsStream(j);
    NoFrames(j);
    if up != [] {
      if up == Script(j) {
        WholeScript(j, up, p.position);
      } else {
        SentIsStream(j, up, p.position);
      }
    }
  }

  lemma NoFrames(j: Job)
    ensures StreamBytes([]) == [] && Script(j) != []
  {
    hide FrameBytes;
  }

  lemma WholeScript(j: Job, up: Text, position: nat)
    requires position <= |j.content| && Follows(j, up, position) && up == Script(j)
    ensures position == |j.content|
  {
    hide FrameBytes, Rest, Script;
    NoFrames(j);
  }

  /** What the sender has written reads back as one offer, the chunks read from the file so far and,
      at the end, one done message; its byte counter is the data of the completed chunk writes. */
  lemma BytesAreConserved(sha: Hash, disk: map<Text, Text>, w: World, i: nat)
    requires Reachable(sha, disk, w) && i < |w.sessions| && w.sessions[i].peer.Own?
    ensures var s := w.sessions[i];
            var p := s.peer.sender;
            && Sane(p)
            && ReadAll(s.up.written) == Reading(SentFrames(s), [])
            && DataOf(SentFrames(s)) == p.job.content[..if s.up.written == [] then 0 else p.position]
            && p.bytesSent <= p.position <= |p.job.content|
            && (!p.phase.Finished? ==> p.bytesSent == p.position - if p.phase.Writing? then p.phase.size else 0)
            && (DoneFrame(p.job) in SentFrames(s) ==> p.bytesSent == |p.job.content|)
  {
    hide WorldInv, Reachable, Rest, Script, FrameBytes, OfferOf, ReplyScript, ReadAll, ReadFrame, StreamBytes;
    ReachableInv(sha, disk, w);
    EachSession(sha, disk, w, i);
    var s := w.sessions[i];
    var p := s.peer.sender;
    WrittenIsSentFrames(sha, s);
    UniqueFraming(SentFrames(s), []);
    NothingToRead();
    assert s.up.written + [] == s.up.written;
    ChunksAreFile(p.job, p.position);
    DataOfSent(s);
    WrittenPrefix(s);
  }

  lemma NothingToRead()
    ensures ReadFrame([]).None?
  {
  }

  lemma DataOfSent(s: Session)
    requires s.peer.Own? && Sane(s.peer.sender)
    ensures s.up.written != [] ==> DataOf(SentFrames(s)) == DataOf(Sent(s.peer.sender.job, s.peer.sender.position))
    ensures s.up.written == [] ==> DataOf(SentFrames(s)) == []
    ensures DoneFrame(s.peer.sender.job) in SentFrames(s) ==> s.up.written == Script(s.peer.sender.job)
  {
    hide Script, Sent, Rest, OfferOf;
    var j := s.peer.sender.job;
    var chunks := Sent(j, s.peer.sender.position);
    ChunksFit(j, s.peer.sender.position);
    DataBehindOffer(OfferFrame(j), chunks);
    var frames := [OfferFrame(j)] + chunks + [DoneFrame(j)];
    assert frames[..|frames| - 1] == [OfferFrame(j)] + chunks;
  }

  lemma {:induction false} DataBehindOffer(offer: Frame, frames: seq<Frame>)
    requires offer.msgType != DATA_CHUNK
    ensures DataOf([offer] + frames) == DataOf(frames)
  {
    var all := [offer] + frames;
    if frames == [] {
      assert all[..|all| - 1] == [];
    } else {
      assert all[..|all| - 1] == [offer] + frames[..|frames| - 1];
      DataBehindOffer(offer, frames[..|frames| - 1]);
    }
  }

  /** The receiver's counter is all the data bytes that it stored over all its sessions, in 64 bits. */
  lemma ReceiverCountsEverything(sha: Hash, disk: map<Text, Text>, w: World)
    requires Reachable(sha, disk, w)
    ensures w.receiver.bytesSent == TotalReceived(w.sessions) % U64_LIMIT
  {
    hide Reachable, SessionInv, Link;
    ReachableInv(sha, disk, w);
  }

  /** What the receiver has written in a session, as frames. */
  function ReplyFrames(s: Session): seq<Frame> {
    match s.decision
    case Undecided => []
    case Rejected(reason) => [RejectFrame(s.id, reason)]
    case Accepted =>
      [AcceptFrame(s.id)] + if s.acked.Some? then [AckFrame(s.id, s.acked.value)] else []
  }

  lemma StreamOfTwo(f: Frame, g: Frame)
    ensures StreamBytes([f]) == FrameBytes(f)
    ensures StreamBytes([f] + [g]) == FrameBytes(f) + FrameBytes(g)
  {
    hide FrameBytes;
    StreamConcat([f], [g]);
    assert StreamBytes([f]) == FrameBytes(f) + StreamBytes([]);
    assert StreamBytes([g]) == FrameBytes(g) + StreamBytes([]);
  }

  lemma RepliesAreStream(sha: Hash, s: Session)
    requires SessionInv(sha, s)
    ensures ReadAll(s.down.written) == Reading(ReplyFrames(s), [])
  {
    hide FrameBytes, ReadAll, ReadFrame, OwnInv, StreamBytes;
    NothingToRead();
    UniqueFraming(ReplyFrames(s), []);
    var ack := AckFrame(s.id, s.acked == Some(true));
    match s.decision {
      case Undecided => EmptyStream();
      case Rejected(reason) => StreamOfTwo(RejectFrame(s.id, reason), ack);
      case Accepted =>
        StreamOfTwo(AcceptFrame(s.id), ack);
        if s.acked.None? {
          assert ReplyFrames(s) == [AcceptFrame(s.id)];
        }
    }
    assert s.down.written == StreamBytes(ReplyFrames(s)) + [];
  }

  lemma EmptyStream()
    ensures StreamBytes([]) == []
  {
  }

  /** The receiver's whole side of a session with any peer: nothing before the decision; a reject with the
      user's reason; or an accept, followed, once it has a verdict, by an acknowledgement whose byte is 1
      if the stored bytes have the announced hash and 0 if not. The verdict is also what it reports. */
  lemma RepliesAreRight(sha: Hash, disk: map<Text, Text>, w: World, i: nat)
    requires Reachable(sha, disk, w) && i < |w.sessions|
    ensures var s := w.sessions[i];
            var frames := ReadAll(s.down.written).frames;
            && ReadAll(s.down.written).rest == []
            && (s.decision != Undecided ==> s.raised.Some?)
            && match s.decision
               case Undecided => frames == [] && s.reports == []
               case Rejected(reason) => frames == [Frame(0x12, s.id, [reason])] && s.reports == []
               case Accepted =>
                 var good := sha(s.received) == s.raised.value.sha256;
                 || (frames == [Frame(0x11, s.id, [])] && (s.reports == [] || s.reports == [Report(false, [])]))
                 || (&& frames == [Frame(0x11, s.id, []), Frame(0x14, s.id, [if good then 1 else 0])]
                     && |s.reports| == 1 && s.reports[0].ok == good)
  {
    hide WorldInv, Reachable, Rest, Script, FrameBytes, OfferOf, ReadAll, ReadFrame, StreamBytes, OwnInv, ReplyScript;
    ReachableInv(sha, disk, w);
    EachSession(sha, disk, w, i);
    RepliesAreStream(sha, w.sessions[i]);
  }

  /** The receiver answers every peer, foreign ones too, under the session id of the peer's offer. */
  lemma RepliesCarryId(sha: Hash, disk: map<Text, Text>, w: World, i: nat)
    requires Reachable(sha, disk, w) && i < |w.sessions|
    ensures var s := w.sessions[i];
            && ReadAll(s.down.written).rest == []
            && (forall f :: f in ReadAll(s.down.written).frames ==> f.sessionId == s.id)
            && (s.peer.Own? && s.down.written != [] ==> s.id == s.peer.sender.job.sessionId)
  {
    hide WorldInv, Reachable, Rest, Script, FrameBytes, OfferOf, ReadAll, ReadFrame, StreamBytes, SenderAligned;
    ReachableInv(sha, disk, w);
    EachSession(sha, disk, w, i);
    RepliesAreStream(sha, w.sessions[i]);
  }

  /** Everything that a sender of this program has put on the wire, in plain numbers: an offer with the
      true description of the file, then data chunks, then at most one done message with the hash. */
  lemma SentFramesAreRight(sha: Hash, disk: map<Text, Text>, w: World, i: nat)
    requires Reachable(sha, disk, w) && i < |w.sessions| && w.sessions[i].peer.Own?
    ensures var p := w.sessions[i].peer.sender;
            var j, frames := p.job, ReadAll(w.sessions[i].up.written).frames;
            frames != [] ==>
              && frames[0] == Frame(0x10, j.sessionId, OfferBytes(Offer(|j.content|, 0, sha(j.content), j.name, j.device)))
              && forall k :: 1 <= k < |frames| ==>
                   || (frames[k].msgType == 0x20 && 0 < |frames[k].payload| <= 32746)
                   || (k == |frames| - 1 && frames[k] == Frame(0x13, j.sessionId, sha(j.content)) && p.bytesSent == |j.content|)
  {
    hide Reachable, WorldInv, Script, ReadAll, Sent, OfferBytes, ReplyScript, SenderAligned;
    BytesAreConserved(sha, disk, w, i);
    ReachableInv(sha, disk, w);
    EachSession(sha, disk, w, i);
    ChunksFit(w.sessions[i].peer.sender.job, w.sessions[i].peer.sender.position);
  }

  lemma FrameHasId(sha: Hash, disk: map<Text, Text>, w: World, i: nat, f: Frame)
    requires Reachable(sha, disk, w) && i < |w.sessions| && w.sessions[i].peer.Own?
    requires f in ReadAll(w.sessions[i].up.written).frames || f in ReadAll(w.sessions[i].down.written).frames
    ensures f.sessionId == w.sessions[i].peer.sender.job.sessionId
  {
    hide Reachable, Script, OfferOf, ReadAll, Sent;
    var s := w.sessions[i];
    RepliesCarryId(sha, disk, w, i);
    BytesAreConserved(sha, disk, w, i);
    ChunksFit(s.peer.sender.job, s.peer.sender.position);
    if s.down.written == [] {
      NothingRead();
    }
  }

  /** All frames of a session with a sender of this program, in both directions, carry the session
      id of its offer. */
  lemma OneSessionId(sha: Hash, disk: map<Text, Text>, w: World, i: nat)
    requires Reachable(sha, disk, w) && i < |w.sessions| && w.sessions[i].peer.Own?
    ensures var s := w.sessions[i];
            forall f :: f in ReadAll(s.up.written).frames || f in ReadAll(s.down.written).frames ==>
              f.sessionId == s.peer.sender.job.sessionId
  {
    hide Reachable, ReadAll;
    var s := w.sessions[i];
    forall f | f in ReadAll(s.up.written).frames || f in ReadAll(s.down.written).frames
      ensures f.sessionId == s.peer.sender.job.sessionId
    {
      FrameHasId(sha, disk, w, i, f);
    }
  }

  lemma NothingRead()
    ensures ReadAll([]).frames == []
  {
  }

  /** A receiver that has stalled serves no session ever again. */
  lemma {:induction false} StalledForever(sha: Hash, run: seq<World>, actions: seq<Action>, p: nat, q: nat)
    requires IsRun(sha, run, actions) && p <= q < |run| && run[p].receiver.phase.Stalled?
    ensures run[q].receiver == run[p].receiver && |run[q].sessions| == |run[p].sessions|
    decreases q - p
  {
    hide RStep, SenderApply, SenderEnabled, ReceiverApply, GateStep;
    if p == q {
    } else {
      StalledForever(sha, run, actions, p, q - 1);
      if actions[q - 1].ReceiverAct? {
        StallsExactly(sha, run[q - 1].receiver, actions[q - 1].revent);
      }
    }
  }

  /** The trust store never loses a fingerprint in any run. */
  lemma {:induction false} TrustNeverShrinks(sha: Hash, run: seq<World>, actions: seq<Action>, p: nat, q: nat)
    requires IsRun(sha, run, actions) && p <= q < |run|
    ensures run[p].gate.store.Keys <= run[q].gate.store.Keys
    decreases q - p
  {
    hide RStep, SenderApply, SenderEnabled, ReceiverApply, ReceiverEnabled, ParseOffer, FingerprintText;
    if p == q {
    } else {
      TrustNeverShrinks(sha, run, actions, p, q - 1);
    }
  }
}
