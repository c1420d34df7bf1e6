/** The receiver object and its completion handlers, each proved against one step of its model. */
module ReceiverCallbacks {
  import opened Bytes
  import Crc32
  import opened Header
  import opened Payloads
  import opened Framing
  import opened Files
  import opened Sending
  import opened Receiving
  import opened Trust

  function RReadEvent(failed: bool, buffer: Text, trusted: bool): REvent {
    if failed then RReadFailed else RGot(buffer, trusted)
  }

  class TransferReceiver {
    const engine: Crc32.Engine
    const sha: Hash
    const gate: TrustGate

    var phase: RPhase
    var pendingSessionId: u64
    var pendingOffer: Offer
    var filePath: Text
    var fileOpen: bool
    var bytesSent: u64
    var files: map<Text, Text>

    ghost predicate Valid()
      reads this, engine, engine.table
    {
      && engine.Valid() && RSane(Model())
      && (fileOpen ==> filePath != [])
      && (phase.Deciding? || phase.Accepting? ==> pendingOffer.fileName != [])
    }

    ghost function Model(): Receiver
      reads this
    {
      Receiver(phase, pendingSessionId, pendingOffer, filePath, fileOpen, bytesSent, files)
    }

    constructor (engine: Crc32.Engine, sha: Hash, gate: TrustGate, files: map<Text, Text>)
      requires engine.Valid()
      ensures Valid() && phase.Listening? && bytesSent == 0 && this.files == files
      ensures this.engine == engine && this.sha == sha && this.gate == gate
    {
      this.engine, this.sha, this.gate, this.files := engine, sha, gate, files;
      phase, fileOpen, filePath, bytesSent := Listening, false, [], 0;
      pendingSessionId, pendingOffer := 0, Offer(0, 0, seq(DIGEST_SIZE, _ => 0), [], []);
    }

    /** A failed accept listens again on a fresh socket. */
    method OnConnection(failed: bool)
      requires Valid() && phase.Listening?
      modifies this`phase
      ensures Valid() && ROutcome(Model(), [], false, None) == RStep(sha, old(Model()), Incoming(!failed))
    {
      phase := if failed then Listening else Greeting;
    }

    method OnHandshake(failed: bool)
      requires Valid() && phase.Greeting?
      modifies this`phase
      ensures Valid() && ROutcome(Model(), [], false, None) == RStep(sha, old(Model()), RShaken(!failed))
    {
      phase := if failed then Stalled else AwaitOffer;
    }

    method OnOfferHeader(failed: bool, buffer: Text)
      requires Valid() && phase.AwaitOffer? && RReady(Model(), RReadEvent(failed, buffer, false))
      modifies this, engine.table
      ensures Valid()
      ensures ROutcome(Model(), [], false, None) == RStep(sha, old(Model()), RReadEvent(failed, buffer, false))
    {
      hide ParseHeader, ParseOffer;
      if failed {
        phase := Stalled;
        return;
      }
      var header := DeserializeHeader(engine, buffer);
      assert buffer[..HEADER_SIZE] == buffer;
      if header.value.msgType != TRANSFER_OFFER {
        phase := Stalled;
        return;
      }
      if header.value.payloadLen > CHUNK_SIZE {
        phase := Stalled;
        return;
      }
      pendingSessionId := header.value.sessionId;
      phase := AwaitOfferPayload(header.value.payloadLen);
    }

    /** `stale` is what the buffer still holds behind the payload, if anything. */
    method OnOfferPayload(failed: bool, buffer: Text, stale: Text, certificate: Option<Digest>) returns (hangUp: bool)
      requires Valid() && phase.AwaitOfferPayload? && GateInv(gate.Model())
      requires RReady(Model(), RReadEvent(failed, buffer, false))
      modifies this, gate
      ensures Valid() && GateInv(gate.Model())
      ensures ROutcome(Model(), [], hangUp, None) ==
              RStep(sha, old(Model()), RReadEvent(failed, buffer, Known(old(gate.Model()), certificate)))
      ensures gate.Model() ==
              if failed then old(gate.Model())
              else GateStep(old(gate.Model()), Validate(certificate, ParseOffer(buffer).value.deviceName))
    {
      hide ParseHeader, ParseOffer, FingerprintText, OfferReadable;
      hangUp := false;
      if failed {
        phase := Stalled;
        return;
      }
      assert (buffer + stale)[..|buffer|] == buffer;
      OfferReadableWhen(buffer + stale, |buffer|);
      var op := DeserializeOffer(buffer + stale, |buffer|);
      pendingOffer := op.value;
      var allowed := gate.ValidatePeerCert(certificate, op.value.deviceName);
      if !allowed {
        hangUp, phase := true, Listening;
        return;
      }
      phase := Deciding;
    }

    method Accept() returns (out: Text)
      requires Valid() && phase.Deciding?
      modifies this`phase, engine.table
      ensures Valid() && ROutcome(Model(), out, false, None) == RStep(sha, old(Model()), UserAccepts)
    {
      hide FrameBytes;
      out := BuildMessage(engine, TRANSFER_ACCEPT, pendingSessionId, []);
      phase := Accepting;
    }

    /** The accept went out: pick a free name in the folder and create the file. */
    method OnAcceptWritten(failed: bool, creatable: bool)
      requires Valid() && phase.Accepting?
      modifies this
      ensures Valid()
      ensures ROutcome(Model(), [], false, None) == RStep(sha, old(Model()), RWritten(!failed, creatable))
    {
      hide Numbered;
      if failed {
        phase := Stalled;
        return;
      }
      var path, _ := ResolveFilePath(files.Keys, pendingOffer.fileName);
      if pendingOffer.fileName in files {
        NumberedIsLonger(pendingOffer.fileName, FirstFree(files.Keys, pendingOffer.fileName, 1));
      }
      filePath := path;
      if !creatable {
        phase := Stalled;
        return;
      }
      files := files[path := []];
      fileOpen := true;
      phase := AwaitChunk;
    }

    method Reject(reason: Byte) returns (out: Text)
      requires Valid() && phase.Deciding?
      modifies this`phase, engine.table
      ensures Valid() && ROutcome(Model(), out, false, None) == RStep(sha, old(Model()), UserRejects(reason))
    {
      hide FrameBytes;
      var payload: Text := [reason];
      out := BuildMessage(engine, TRANSFER_REJECT, pendingSessionId, payload);
      phase := Rejecting;
    }

    method OnRejectWritten(failed: bool)
      requires Valid() && phase.Rejecting?
      modifies this`phase
      ensures Valid() && ROutcome(Model(), [], true, None) == RStep(sha, old(Model()), RWritten(!failed, false))
    {
      phase := Listening;
    }

    /** Whatever the stream's state: closes it, and removes the file it was writing, if any. */
    method CleanupFailedTransfer()
      modifies this`fileOpen, this`filePath, this`files
      ensures !fileOpen && filePath == []
      ensures files == if old(filePath) == [] then old(files) else old(files) - {old(filePath)}
    {
      if fileOpen {
        fileOpen := false;
      }
      if filePath != [] && filePath in files {
        files := files - {filePath};
      }
      filePath := [];
    }

    /** Cleans up, reports the failure and listens again. */
    method GiveUp() returns (report: Option<Report>)
      requires Valid() && fileOpen
      modifies this`fileOpen, this`filePath, this`files, this`phase
      ensures Valid() && ROutcome(Model(), [], true, report) == Fail(old(Model()))
    {
      CleanupFailedTransfer();
      report := Some(Report(false, []));
      phase := Listening;
    }

    method OnChunkHeader(failed: bool, buffer: Text) returns (out: Text, hangUp: bool, report: Option<Report>)
      requires Valid() && phase.AwaitChunk? && RReady(Model(), RReadEvent(failed, buffer, false))
      modifies this, engine.table
      ensures Valid()
      ensures ROutcome(Model(), out, hangUp, report) == RStep(sha, old(Model()), RReadEvent(failed, buffer, false))
    {
      hide ParseHeader, ParseOffer, FrameBytes;
      out, hangUp, report := [], false, None;
      if failed {
        report := GiveUp();
        hangUp := true;
        return;
      }
      var header := DeserializeHeader(engine, buffer);
      assert buffer[..HEADER_SIZE] == buffer;
      if header.value.msgType == DATA_CHUNK {
        phase := AwaitChunkPayload(header.value.payloadLen);
      } else if header.value.msgType == TRANSFER_DONE {
        out, report := FinishTransfer();
        hangUp := true;
      } else {
        report := GiveUp();
        hangUp := true;
      }
    }

    /** Hashes the stored file, answers with the verdict and removes a file that does not match. */
    method FinishTransfer() returns (out: Text, report: Option<Report>)
      requires Valid() && fileOpen
      modifies this`phase, this`fileOpen, this`files, engine.table
      ensures Valid() && ROutcome(Model(), out, true, report) == Finish(sha, old(Model()))
    {
      hide FrameBytes;
      var digest := HashFile(sha, files[filePath]);
      var checksumOk := digest == pendingOffer.sha256;
      var payload: Text := [if checksumOk then 1 else 0];
      out := BuildMessage(engine, TRANSFER_ACK, pendingSessionId, payload);
      fileOpen := false;
      if !checksumOk {
        files := files - {filePath};
      }
      report := Some(Report(checksumOk, filePath));
      phase := Listening;
    }

    method OnChunkPayload(failed: bool, buffer: Text) returns (hangUp: bool, report: Option<Report>)
      requires Valid() && phase.AwaitChunkPayload? && RReady(Model(), RReadEvent(failed, buffer, false))
      modifies this
      ensures Valid()
      ensures ROutcome(Model(), [], hangUp, report) == RStep(sha, old(Model()), RReadEvent(failed, buffer, false))
    {
      hangUp, report := false, None;
      if failed {
        report := GiveUp();
        hangUp := true;
        return;
      }
      files := files[filePath := files[filePath] + buffer];
      bytesSent := (bytesSent + |buffer|) % U64_LIMIT;
      phase := AwaitChunk;
    }
  }
}
