/** The receiving side, which serves one session after another. */
module Receiving {
  import opened Bytes
  import opened Header
  import opened Payloads
  import opened Framing
  import opened Files
  import opened Sending

  /** What the receiver waits for. `Stalled` collects the early returns that never listen again. */
  datatype RPhase =
    | Listening
    | Greeting
    | AwaitOffer
    | AwaitOfferPayload(len: u32)
    | Deciding
    | Accepting
    | Rejecting
    | AwaitChunk
    | AwaitChunkPayload(len: u32)
    | Stalled

  /** `files` is the downloads folder; while `fileOpen`, `filePath` is being written in it. */
  datatype Receiver = Receiver(phase: RPhase, sessionId: u64, offer: Offer, filePath: Text,
                               fileOpen: bool, bytesSent: u64, files: map<Text, Text>)

  datatype REvent =
    | Incoming(ok: bool)
    | RShaken(ok: bool)
    | RGot(data: Text, trusted: bool)
    | RReadFailed
    | UserAccepts
    | UserRejects(reason: Byte)
    | RWritten(ok: bool, created: bool)

  /** An `onComplete` call. */
  datatype Report = Report(ok: bool, path: Text)

  /** New state, bytes handed to the socket, whether the socket is closed, and the report made. */
  datatype ROutcome = ROutcome(receiver: Receiver, out: Text, hangUp: bool, report: Option<Report>)

  function RWanted(phase: RPhase): Option<nat> {
    match phase
    case AwaitOffer => Some(HEADER_SIZE)
    case AwaitOfferPayload(len) => Some(len)
    case AwaitChunk => Some(HEADER_SIZE)
    case AwaitChunkPayload(len) => Some(len)
    case _ => None
  }

  /** Input that the parsers accept, from a peer whose chunks fit the buffer. */
  predicate Decodable(phase: RPhase, data: Text) {
    match phase
    case AwaitOffer => |data| == HEADER_SIZE && ParseHeader(data).Some?
    case AwaitOfferPayload(_) => ParseOffer(data).Some? && Flat(ParseOffer(data).value.fileName)
    case AwaitChunk =>
      && |data| == HEADER_SIZE && ParseHeader(data).Some?
      && (ParseHeader(data).value.msgType == DATA_CHUNK ==> ParseHeader(data).value.payloadLen <= CHUNK_SIZE)
    case _ => true
  }

  predicate RReady(r: Receiver, e: REvent) {
    match e
    case Incoming(_) => r.phase.Listening?
    case RShaken(_) => r.phase.Greeting?
    case UserAccepts => r.phase.Deciding?
    case UserRejects(_) => r.phase.Deciding?
    case RWritten(_, _) => r.phase.Accepting? || r.phase.Rejecting?
    case RReadFailed => RWanted(r.phase).Some?
    case RGot(data, _) => RWanted(r.phase) == Some(|data|) && Decodable(r.phase, data)
  }

  /** The stream is open exactly in the phases that receive data, and then its file exists. */
  predicate RSane(r: Receiver) {
    && (r.fileOpen <==> r.phase.AwaitChunk? || r.phase.AwaitChunkPayload?)
    && (r.fileOpen ==> r.filePath in r.files)
  }

  function Quiet(r: Receiver): ROutcome { ROutcome(r, [], false, None) }

  /** `cleanupFailedTransfer`, the failure report and the return to listening. */
  function Fail(r: Receiver): ROutcome {
    ROutcome(r.(phase := Listening, fileOpen := false, files := r.files - {r.filePath}, filePath := []),
             [], true, Some(Report(false, [])))
  }

  function AckFrame(id: u64, ok: bool): Frame { Frame(TRANSFER_ACK, id, AckBytes(ok)) }
  function AcceptFrame(id: u64): Frame { Frame(TRANSFER_ACCEPT, id, []) }
  function RejectFrame(id: u64, reason: Byte): Frame { Frame(TRANSFER_REJECT, id, RejectBytes(reason)) }

  /** Done arrived: hash what is on disk, acknowledge, keep the file only if it matches. */
  function Finish(sha: Hash, r: Receiver): ROutcome
    requires r.filePath in r.files
  {
    var ok := sha(r.files[r.filePath]) == r.offer.sha256;
    var files := if ok then r.files else r.files - {r.filePath};
    ROutcome(r.(phase := Listening, fileOpen := false, files := files),
             FrameBytes(AckFrame(r.sessionId, ok)), true, Some(Report(ok, r.filePath)))
  }

  function OnOfferHeader(r: Receiver, h: BaseHeader): ROutcome {
    if h.msgType != TRANSFER_OFFER then Quiet(r.(phase := Stalled))
    else if h.payloadLen > CHUNK_SIZE then Quiet(r.(phase := Stalled))
    else Quiet(r.(phase := AwaitOfferPayload(h.payloadLen), sessionId := h.sessionId))
  }

  function OnChunkHeader(sha: Hash, r: Receiver, h: BaseHeader): ROutcome
    requires r.filePath in r.files
  {
    if h.msgType == DATA_CHUNK then Quiet(r.(phase := AwaitChunkPayload(h.payloadLen)))
    else if h.msgType == TRANSFER_DONE then Finish(sha, r)
    else Fail(r)
  }

  function OnAcceptWritten(r: Receiver, ok: bool, created: bool): ROutcome {
    if !ok then Quiet(r.(phase := Stalled)) else
    var path := ResolvedName(r.files.Keys, r.offer.fileName);
    if !created then Quiet(r.(phase := Stalled, filePath := path))
    else Quiet(r.(phase := AwaitChunk, filePath := path, fileOpen := true, files := r.files[path := []]))
  }

  function OnChunk(r: Receiver, data: Text): ROutcome
    requires r.filePath in r.files
  {
    Quiet(r.(phase := AwaitChunk, bytesSent := (r.bytesSent + |data|) % U64_LIMIT,
             files := r.files[r.filePath := r.files[r.filePath] + data]))
  }

  function RStep(sha: Hash, r: Receiver, e: REvent): (o: ROutcome)
    requires RSane(r) && RReady(r, e)
    ensures RSane(o.receiver)
  {
    match e
    case Incoming(ok) => Quiet(r.(phase := if ok then Greeting else Listening))
    case RShaken(ok) => Quiet(r.(phase := if ok then AwaitOffer else Stalled))
    case UserAccepts => ROutcome(r.(phase := Accepting), FrameBytes(AcceptFrame(r.sessionId)), false, None)
    case UserRejects(reason) =>
      ROutcome(r.(phase := Rejecting), FrameBytes(RejectFrame(r.sessionId, reason)), false, None)
    case RWritten(ok, created) =>
      if r.phase.Accepting? then OnAcceptWritten(r, ok, created)
      else ROutcome(r.(phase := Listening), [], true, None)
    case RReadFailed =>
      if r.fileOpen then Fail(r) else Quiet(r.(phase := Stalled))
    case RGot(data, trusted) =>
      match r.phase
      case AwaitOffer => OnOfferHeader(r, ParseHeader(data).value)
      case AwaitOfferPayload(_) =>
        var o := r.(offer := ParseOffer(data).value);
        if trusted then Quiet(o.(phase := Deciding)) else ROutcome(o.(phase := Listening), [], true, None)
      case AwaitChunk => OnChunkHeader(sha, r, ParseHeader(data).value)
      case AwaitChunkPayload(_) => OnChunk(r, data)
  }

  // ------------------------------------------------------------------ the folder

  /** The files that no transfer is writing. */
  function Settled(r: Receiver): map<Text, Text> {
    if r.fileOpen then r.files - {r.filePath} else r.files
  }

  /** Every callback leaves every settled file alone, and settles at most one more: the file that
      it reports as received, whose hash is the announced one. */
  lemma SettledGrows(sha: Hash, r: Receiver, e: REvent)
    requires RSane(r) && RReady(r, e)
    ensures var o := RStep(sha, r, e);
            if o.report.Some? && o.report.value.ok
            then && r.fileOpen && o.report.value.path == r.filePath && r.filePath !in Settled(r)
                 && sha(r.files[r.filePath]) == r.offer.sha256
                 && Settled(o.receiver) == Settled(r)[r.filePath := r.files[r.filePath]]
            else Settled(o.receiver) == Settled(r)
  {
    hide ParseHeader, ParseOffer, FrameBytes, Flat;
  }

  // ------------------------------------------------------------------ the early returns

  /** The callbacks after which the receiver never listens again. */
  predicate Stalls(r: Receiver, e: REvent)
    requires RReady(r, e)
  {
    match e
    case RShaken(ok) => !ok
    case RReadFailed => r.phase.AwaitOffer? || r.phase.AwaitOfferPayload?
    case RWritten(ok, created) => r.phase.Accepting? && (!ok || !created)
    case RGot(data, _) =>
      && r.phase.AwaitOffer?
      && var h := ParseHeader(data).value;
         h.msgType != 0x10 || h.payloadLen > 32746
    case _ => false
  }

  /** Exactly those callbacks stall, and a stalled receiver has no callback left. */
  lemma StallsExactly(sha: Hash, r: Receiver, e: REvent)
    requires RSane(r) && RReady(r, e)
    ensures !r.phase.Stalled?
    ensures RStep(sha, r, e).receiver.phase.Stalled? <==> Stalls(r, e)
  {
    hide ParseHeader, ParseOffer, FrameBytes, ResolvedName;
  }
}
