/** Messages on a byte stream: 22 header bytes, then as many payload bytes as the header says. */
module Framing {
  import opened Bytes
  import Crc32
  import opened Header

  type Payload = p: Text | |p| < U32_LIMIT

  datatype Frame = Frame(msgType: Byte, sessionId: u64, payload: Payload)

  function FrameHeader(f: Frame): BaseHeader {
    BuildHeader(f.msgType, f.sessionId, |f.payload|)
  }

  function FrameBytes(f: Frame): (r: Text)
    ensures |r| == HEADER_SIZE + |f.payload|
  {
    HeaderBytes(FrameHeader(f)) + f.payload
  }

  /** The bytes of a whole conversation, one message after the other. */
  function StreamBytes(frames: seq<Frame>): Text {
    if frames == [] then [] else FrameBytes(frames[0]) + StreamBytes(frames[1..])
  }

  /** One round of the reading callbacks: nothing until a whole readable frame is there. */
  function ReadFrame(s: Text): (r: Option<Frame>)
    ensures r.Some? ==> |FrameBytes(r.value)| <= |s|
  {
    if |s| < HEADER_SIZE then None else
    match ParseHeader(s[..HEADER_SIZE])
    case None => None
    case Some(h) =>
      if |s| < HEADER_SIZE + h.payloadLen then None
      else Some(Frame(h.msgType, h.sessionId, s[HEADER_SIZE..HEADER_SIZE + h.payloadLen]))
  }

  datatype Reading = Reading(frames: seq<Frame>, rest: Text)

  /** All the frames that can be read off the front of a stream, and what is left. */
  function ReadAll(s: Text): Reading
    decreases |s|
  {
    match ReadFrame(s)
    case None => Reading([], s)
    case Some(f) =>
      var tail := ReadAll(s[|FrameBytes(f)|..]);
      Reading([f] + tail.frames, tail.rest)
  }

  /** The same reader fed piece by piece, keeping the unread bytes between pieces. */
  function ReadPieces(pending: Text, pieces: seq<Text>): Reading
    decreases |pieces|
  {
    if pieces == [] then Reading([], pending) else
    var now := ReadAll(pending + pieces[0]);
    var later := ReadPieces(now.rest, pieces[1..]);
    Reading(now.frames + later.frames, later.rest)
  }

  function Flatten(pieces: seq<Text>): Text {
    if pieces == [] then [] else pieces[0] + Flatten(pieces[1..])
  }

  /** The header that stands at offset `k` of a stream. */
  function HeaderAt(s: Text, k: nat): Option<BaseHeader> {
    if k + HEADER_SIZE <= |s| then ParseHeader(s[k..k + HEADER_SIZE]) else None
  }

  // ------------------------------------------------------------------ laws

  /** A built frame inside a stream shows its header, then its payload, then what follows. */
  lemma FrameInside(a: Text, f: Frame, b: Text)
    ensures HeaderAt(a + FrameBytes(f) + b, |a|) == Some(Seal(FrameHeader(f)))
    ensures (a + FrameBytes(f) + b)[|a| + HEADER_SIZE..] == f.payload + b
  {
    hide HeaderBytes, ParseHeader, Seal;
    var s := a + FrameBytes(f) + b;
    assert s[|a|..|a| + HEADER_SIZE] == HeaderBytes(FrameHeader(f));
    BuiltHeaderParses(f.msgType, f.sessionId, |f.payload|);
  }

  lemma ReadFrameExact(f: Frame, rest: Text)
    ensures ReadFrame(FrameBytes(f) + rest) == Some(f)
  {
    hide HeaderBytes, ParseHeader;
    var s := FrameBytes(f) + rest;
    assert s[..HEADER_SIZE] == HeaderBytes(FrameHeader(f));
    BuiltHeaderParses(f.msgType, f.sessionId, |f.payload|);
    assert s[HEADER_SIZE..HEADER_SIZE + |f.payload|] == f.payload;
  }

  lemma FrameReencodes(s: Text)
    requires ReadFrame(s).Some?
    ensures s == FrameBytes(ReadFrame(s).value) + s[|FrameBytes(ReadFrame(s).value)|..]
  {
    hide HeaderBytes, ParseHeader, Sealed, Covered;
    var f := ReadFrame(s).value;
    var n := HEADER_SIZE + |f.payload|;
    var h := ParseHeader(s[..HEADER_SIZE]).value;
    HeaderExact(s[..HEADER_SIZE]);
    SealedFields(h);
    SameCovered(FrameHeader(f), h);
    assert s == s[..HEADER_SIZE] + s[HEADER_SIZE..n] + s[n..];
  }

  lemma SealedFields(h: BaseHeader)
    requires Sealed(h)
    ensures h.magic == NT_MAGIC && h.version == NT_VERSION
  {
  }

  /** The stored checksum of a header has no influence on its bytes. */
  lemma SameCovered(g: BaseHeader, h: BaseHeader)
    requires g == h.(crc := g.crc)
    ensures HeaderBytes(g) == HeaderBytes(h)
  {
    assert Covered(g) == Covered(h);
  }

  /** Unique framing: a stream of built frames reads back as exactly those frames. */
  lemma {:induction false} UniqueFraming(frames: seq<Frame>, rest: Text)
    requires ReadFrame(rest).None?
    ensures ReadAll(StreamBytes(frames) + rest) == Reading(frames, rest)
  {
    hide FrameBytes, ReadFrame;
    if frames == [] {
      assert StreamBytes(frames) + rest == rest;
    } else {
      var f, tail := frames[0], StreamBytes(frames[1..]) + rest;
      assert StreamBytes(frames) + rest == FrameBytes(f) + tail;
      ReadFrameExact(f, tail);
      UniqueFraming(frames[1..], rest);
    }
  }

  /** Reading never invents or drops a byte, on any stream. */
  lemma {:induction false} ReadingReencodes(s: Text)
    ensures s == StreamBytes(ReadAll(s).frames) + ReadAll(s).rest
    ensures ReadFrame(ReadAll(s).rest).None?
    decreases |s|
  {
    hide FrameBytes, ReadFrame;
    if ReadFrame(s).Some? {
      var f := ReadFrame(s).value;
      FrameReencodes(s);
      ReadingReencodes(s[|FrameBytes(f)|..]);
    } else {
      assert s == StreamBytes([]) + s;
    }
  }

  lemma ReadFrameGrows(s: Text, more: Text)
    requires ReadFrame(s).Some?
    ensures ReadFrame(s + more) == ReadFrame(s)
  {
    hide ParseHeader, HeaderBytes;
    var h := ParseHeader(s[..HEADER_SIZE]).value;
    assert (s + more)[..HEADER_SIZE] == s[..HEADER_SIZE];
    assert (s + more)[HEADER_SIZE..HEADER_SIZE + h.payloadLen] == s[HEADER_SIZE..HEADER_SIZE + h.payloadLen];
  }

  lemma {:induction false} ReadAllSplit(a: Text, b: Text)
    ensures var now := ReadAll(a);
            var later := ReadAll(now.rest + b);
            ReadAll(a + b) == Reading(now.frames + later.frames, later.rest)
    decreases |a|
  {
    hide FrameBytes, ReadFrame;
    if ReadFrame(a).None? {
      var later := ReadAll(a + b);
      assert [] + later.frames == later.frames;
    } else {
      var f := ReadFrame(a).value;
      var n := |FrameBytes(f)|;
      ReadFrameGrows(a, b);
      assert (a + b)[n..] == a[n..] + b;
      ReadAllSplit(a[n..], b);
      var now := ReadAll(a[n..]);
      var later := ReadAll(now.rest + b);
      assert ([f] + now.frames) + later.frames == [f] + (now.frames + later.frames);
    }
  }

  /** Delivery may cut the stream anywhere: the frames read are those of the whole stream. */
  lemma {:induction false} SplitInvariant(pending: Text, pieces: seq<Text>)
    requires ReadFrame(pending).None?
    ensures ReadPieces(pending, pieces) == ReadAll(pending + Flatten(pieces))
    decreases |pieces|
  {
    hide ReadFrame, FrameBytes, StreamBytes;
    if pieces == [] {
      assert pending + Flatten(pieces) == pending;
    } else {
      var now := ReadAll(pending + pieces[0]);
      ReadingReencodes(pending + pieces[0]);
      SplitInvariant(now.rest, pieces[1..]);
      assert pending + Flatten(pieces) == (pending + pieces[0]) + Flatten(pieces[1..]);
      ReadAllSplit(pending + pieces[0], Flatten(pieces[1..]));
    }
  }

  /** However the bytes of a conversation arrive, the reader yields exactly its frames. */
  lemma FramingSurvivesDelivery(frames: seq<Frame>, pieces: seq<Text>)
    requires Flatten(pieces) == StreamBytes(frames)
    ensures ReadPieces([], pieces) == Reading(frames, [])
  {
    SplitInvariant([], pieces);
    UniqueFraming(frames, []);
    assert [] + Flatten(pieces) == StreamBytes(frames) + [];
  }

  /** Build the header, serialise it, append the payload. */
  method BuildMessage(engine: Crc32.Engine, msgType: Byte, sessionId: u64, payload: Payload) returns (message: Text)
    requires engine.Valid()
    modifies engine.table
    ensures engine.Valid() && message == FrameBytes(Frame(msgType, sessionId, payload))
  {
    hide HeaderBytes;
    var header := BuildHeader(msgType, sessionId, |payload|);
    message := SerializeHeader(engine, header);
    message := message + payload;
  }
}
