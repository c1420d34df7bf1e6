/** The sender object and its completion handlers, each proved against one step of its model. */
module SenderCallbacks {
  import opened Bytes
  import Crc32
  import opened Header
  import opened Payloads
  import opened Framing
  import opened Files
  import opened Sending

  /** A read handler is called with an error code or with the bytes asked for. */
  function ReadEvent(failed: bool, buffer: Text): Event {
    if failed then ReadFailed else Got(buffer)
  }

  lemma AtMostAll(j: Job, position: nat)
    requires Boundary(j, position)
    ensures position <= |j.content|
  {
  }

  class TransferSender {
    const engine: Crc32.Engine
    const sha: Hash
    const fileName: Text
    const deviceName: Text
    const sessionId: u64

    var phase: Phase
    var file: Text
    var position: nat
    var sha256: Digest
    var fileSize: u64
    var bytesSent: nat
    var reports: seq<bool>

    ghost predicate Valid()
      reads this, engine, engine.table
    {
      && engine.Valid()
      && fileSize == |file| && 52 + |fileName| + |deviceName| < U32_LIMIT && Flat(fileName)
      && Boundary(TheJob(), position)
    }

    ghost function TheJob(): Job
      requires |file| < U64_LIMIT && 52 + |fileName| + |deviceName| < U32_LIMIT && Flat(fileName)
      reads this
    {
      JobData(file, fileName, deviceName, sessionId, sha256)
    }

    ghost function Model(): Sender
      requires Valid()
      reads this, engine, engine.table
    {
      Sender(TheJob(), phase, position, bytesSent, reports)
    }

    constructor (engine: Crc32.Engine, sha: Hash, fileName: Text, deviceName: Text, sessionId: u64)
      requires engine.Valid() && 52 + |fileName| + |deviceName| < U32_LIMIT && Flat(fileName)
      ensures Valid() && this.engine == engine && this.sha == sha && bytesSent == 0 && reports == []
      ensures this.fileName == fileName && this.deviceName == deviceName && this.sessionId == sessionId
    {
      this.engine, this.sha := engine, sha;
      this.fileName, this.deviceName, this.sessionId := fileName, deviceName, sessionId;
      phase, file, position, fileSize := Finished, [], 0, 0;
      sha256 := seq(DIGEST_SIZE, _ => 0);
      bytesSent, reports := 0, [];
    }

    /** Opens and hashes the file, then starts to connect; nothing happens if it cannot be opened. */
    method Start(source: Option<Text>) returns (ok: bool)
      requires Valid() && bytesSent == 0 && reports == []
      requires source.Some? ==> |source.value| < U64_LIMIT
      modifies this
      ensures Valid() && ok == source.Some?
      ensures ok ==> Model() == Initial(JobData(source.value, fileName, deviceName, sessionId, sha(source.value)))
      ensures !ok ==> Model() == old(Model())
    {
      if source.None? {
        return false;
      }
      file, position := source.value, 0;
      fileSize := |file|;
      sha256 := HashFile(sha, file);
      phase := Connecting;
      return true;
    }

    method Complete(ok: bool)
      requires Valid()
      modifies this`reports, this`phase
      ensures Valid() && Model() == Sending.Complete(old(Model()), ok)
    {
      reports := reports + [ok];
      phase := Finished;
    }

    method OnConnect(failed: bool)
      requires Valid() && phase.Connecting?
      modifies this
      ensures Valid() && Model() == Step(old(Model()), Connected(!failed)).sender
    {
      if failed {
        Complete(false);
        return;
      }
      phase := Handshaking;
    }

    method OnHandshake(failed: bool) returns (out: Text)
      requires Valid() && phase.Handshaking?
      modifies this, engine.table
      ensures Valid() && Outcome(Model(), out) == Step(old(Model()), Shaken(!failed))
    {
      if failed {
        Complete(false);
        return [];
      }
      out := SendOffer();
    }

    method SendOffer() returns (out: Text)
      requires Valid()
      modifies this`phase, engine.table
      ensures Valid() && Model() == old(Model()).(phase := AwaitReply) && out == FrameBytes(OfferFrame(TheJob()))
    {
      hide OfferBytes, FrameBytes;
      var payload := Offer(fileSize, 0, sha256, fileName, deviceName);
      var serializedPayload := SerializeOffer(payload);
      out := BuildMessage(engine, TRANSFER_OFFER, sessionId, serializedPayload);
      phase := AwaitReply;
    }

    /** Reads up to 32746 bytes from the file; writes them as a chunk, or writes done at the end. */
    method SendNextChunk() returns (out: Text)
      requires Valid()
      modifies this`phase, this`position, engine.table
      ensures Valid() && Outcome(Model(), out) == NextChunk(old(Model()))
    {
      hide FrameBytes, Boundary;
      assert position <= |file| by { AtMostAll(TheJob(), position); }
      var bytesRead := Min(CHUNK_SIZE, |file| - position);
      var buffer := file[position..position + bytesRead];
      if bytesRead > 0 {
        NextBoundary(TheJob(), position);
        out := BuildMessage(engine, DATA_CHUNK, sessionId, buffer);
        position := position + bytesRead;
        phase := Writing(bytesRead);
      } else {
        out := SendDone();
      }
    }

    method SendDone() returns (out: Text)
      requires Valid()
      modifies this`phase, engine.table
      ensures Valid() && Model() == old(Model()).(phase := AwaitAck) && out == FrameBytes(DoneFrame(TheJob()))
    {
      hide FrameBytes, Boundary;
      var payload := PushText([], sha256, DIGEST_SIZE);
      assert payload == sha256;
      out := BuildMessage(engine, TRANSFER_DONE, sessionId, payload);
      phase := AwaitAck;
    }

    method OnReplyHeader(failed: bool, buffer: Text) returns (out: Text)
      requires Valid() && phase.AwaitReply? && Ready(Model(), ReadEvent(failed, buffer))
      modifies this, engine.table
      ensures Valid() && Outcome(Model(), out) == Step(old(Model()), ReadEvent(failed, buffer))
    {
      hide ParseHeader, NextChunk;
      out := [];
      if failed {
        Complete(false);
        return;
      }
      var header := DeserializeHeader(engine, buffer);
      assert buffer[..HEADER_SIZE] == buffer;
      if header.value.msgType == TRANSFER_ACCEPT {
        if header.value.payloadLen == 0 {
          out := SendNextChunk();
        } else {
          phase := AwaitNoise(header.value.payloadLen);
        }
      } else if header.value.msgType == TRANSFER_REJECT {
        phase := AwaitReason(header.value.payloadLen);
      } else {
        phase := Finished;
      }
    }

    /** The accept carried a payload: it is skipped, and a read error here goes unnoticed. */
    method OnNoise(failed: bool, buffer: Text) returns (out: Text)
      requires Valid() && phase.AwaitNoise? && Ready(Model(), ReadEvent(failed, buffer))
      modifies this, engine.table
      ensures Valid() && Outcome(Model(), out) == Step(old(Model()), ReadEvent(failed, buffer))
    {
      hide NextChunk;
      out := SendNextChunk();
    }

    method OnReason(failed: bool, buffer: Text)
      requires Valid() && phase.AwaitReason? && Ready(Model(), ReadEvent(failed, buffer))
      modifies this
      ensures Valid() && Outcome(Model(), []) == Step(old(Model()), ReadEvent(failed, buffer))
    {
      Complete(false);
    }

    /** `written` counts the header too; after an error it may be anything. */
    method OnChunkWritten(failed: bool, written: nat) returns (out: Text)
      requires Valid() && phase.Writing? && (!failed ==> written == HEADER_SIZE + phase.size)
      modifies this, engine.table
      ensures Valid() && Outcome(Model(), out) == Step(old(Model()), Written(!failed))
      ensures bytesSent >= old(bytesSent)
    {
      hide NextChunk;
      if failed {
        Complete(false);
        return [];
      }
      bytesSent := bytesSent + (written - HEADER_SIZE);
      out := SendNextChunk();
    }

    method OnAckHeader(failed: bool, buffer: Text)
      requires Valid() && phase.AwaitAck? && Ready(Model(), ReadEvent(failed, buffer))
      modifies this, engine.table
      ensures Valid() && Outcome(Model(), []) == Step(old(Model()), ReadEvent(failed, buffer))
    {
      hide ParseHeader;
      if failed {
        Complete(false);
        return;
      }
      var header := DeserializeHeader(engine, buffer);
      assert buffer[..HEADER_SIZE] == buffer;
      if header.value.msgType == TRANSFER_ACK {
        phase := AwaitAckPayload(header.value.payloadLen);
      } else {
        phase := Finished;
      }
    }

    method OnAckPayload(failed: bool, buffer: Text)
      requires Valid() && phase.AwaitAckPayload? && Ready(Model(), ReadEvent(failed, buffer))
      modifies this
      ensures Valid() && Outcome(Model(), []) == Step(old(Model()), ReadEvent(failed, buffer))
    {
      if failed {
        Complete(false);
        return;
      }
      var checksumOk := buffer[0] != 0;
      if checksumOk {
        Complete(true);
      } else {
        phase := Finished;
      }
    }
  }
}
