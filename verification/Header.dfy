/** The 22-byte header in front of every message. */
module Header {
  import opened Bytes
  import opened Crc32

  const NT_MAGIC: u32 := 0x4E544652
  const NT_VERSION: Byte := 1
  const HEADER_SIZE := 22

  const DISCOVERY_BROADCAST: Byte := 0x01
  const DISCOVERY_REPLY: Byte := 0x02
  const TRANSFER_OFFER: Byte := 0x10
  const TRANSFER_ACCEPT: Byte := 0x11
  const TRANSFER_REJECT: Byte := 0x12
  const TRANSFER_DONE: Byte := 0x13
  const TRANSFER_ACK: Byte := 0x14
  const DATA_CHUNK: Byte := 0x20

  /** `msgType` is a raw byte: the parser casts without checking that the type is a known one. */
  datatype BaseHeader = BaseHeader(magic: u32, version: Byte, msgType: Byte,
                                   sessionId: u64, payloadLen: u32, crc: u32)

  function BuildHeader(msgType: Byte, sessionId: u64, payloadLen: u32): BaseHeader {
    BaseHeader(NT_MAGIC, NT_VERSION, msgType, sessionId, payloadLen, 0)
  }

  /** The 18 bytes that the checksum covers. */
  function Covered(h: BaseHeader): (r: Text)
    ensures |r| == 18
  {
    BigEndian(h.magic, 4) + [h.version] + [h.msgType] + BigEndian(h.sessionId, 8) + BigEndian(h.payloadLen, 4)
  }

  function HeaderBytes(h: BaseHeader): (r: Text)
    ensures |r| == HEADER_SIZE
  {
    Covered(h) + BigEndian(Crc(Covered(h)), 4)
  }

  /** The fields of 22 bytes, unchecked. */
  function Fields(d: Text): BaseHeader
    requires |d| == HEADER_SIZE
  {
    LimitValues();
    BigEndianOfValue(d[0..4]);
    BigEndianOfValue(d[6..14]);
    BigEndianOfValue(d[14..18]);
    BigEndianOfValue(d[18..22]);
    BaseHeader(Value(d[0..4]), d[4], d[5], Value(d[6..14]), Value(d[14..18]), Value(d[18..22]))
  }

  function ParseHeader(d: Text): Option<BaseHeader>
    requires |d| == HEADER_SIZE
  {
    var h := Fields(d);
    if h.magic != NT_MAGIC then None
    else if h.version != NT_VERSION then None
    else if h.crc != Crc(d[..18]) then None
    else Some(h)
  }

  /** A header that a peer of this version can accept: the checksum field is the right one. */
  predicate Sealed(h: BaseHeader) {
    h.magic == NT_MAGIC && h.version == NT_VERSION && h.crc == Crc(Covered(h))
  }

  function Seal(h: BaseHeader): BaseHeader {
    h.(crc := Crc(Covered(h)))
  }

  // ------------------------------------------------------------------ laws

  lemma FieldsOfBytes(h: BaseHeader)
    ensures Fields(HeaderBytes(h)) == Seal(h)
    ensures HeaderBytes(h)[..18] == Covered(h)
  {
    hide Crc;
    var d := HeaderBytes(h);
    LimitValues();
    assert d[0..4] == BigEndian(h.magic, 4);
    assert d[6..14] == BigEndian(h.sessionId, 8);
    assert d[14..18] == BigEndian(h.payloadLen, 4);
    assert d[18..22] == BigEndian(Crc(Covered(h)), 4);
    FieldRoundTrip(h.magic, 4);
    FieldRoundTrip(h.sessionId, 8);
    FieldRoundTrip(h.payloadLen, 4);
    FieldRoundTrip(Crc(Covered(h)), 4);
  }

  lemma BytesOfFields(d: Text)
    requires |d| == HEADER_SIZE
    ensures Covered(Fields(d)) == d[..18]
    ensures BigEndian(Fields(d).crc, 4) == d[18..]
  {
    BigEndianOfValue(d[0..4]);
    BigEndianOfValue(d[6..14]);
    BigEndianOfValue(d[14..18]);
    BigEndianOfValue(d[18..22]);
    assert d[..18] == d[0..4] + [d[4]] + [d[5]] + d[6..14] + d[14..18];
    assert d[18..] == d[18..22];
  }

  /** Serialising then parsing gives the header back with its checksum filled in, and the
      parser refuses the bytes exactly when magic or version are foreign. */
  lemma HeaderRoundTrip(h: BaseHeader)
    ensures ParseHeader(HeaderBytes(h)) ==
            if h.magic == NT_MAGIC && h.version == NT_VERSION then Some(Seal(h)) else None
  {
    hide Crc, Covered, HeaderBytes, Fields;
    FieldsOfBytes(h);
  }

  lemma MagicBytes()
    ensures BigEndian(NT_MAGIC, 4) == [0x4E, 0x54, 0x46, 0x52]
  {
    assert BigEndian(0x4E5446, 3) == BigEndian(0x4E54, 2) + [0x46];
    assert BigEndian(0x4E54, 2) == BigEndian(0x4E, 1) + [0x54];
    assert BigEndian(0x4E, 1) == BigEndian(0, 0) + [0x4E];
  }

  /** Every place of a message header: "NTFR", version 1, the type, eight bytes of session id, four of
      payload length, four of the checksum of what stands before. */
  lemma HeaderLayout(msgType: Byte, sessionId: u64, payloadLen: u32)
    ensures var d := HeaderBytes(BuildHeader(msgType, sessionId, payloadLen));
            && |d| == 22 && d[..6] == [0x4E, 0x54, 0x46, 0x52, 1, msgType]
            && Value(d[6..14]) == sessionId && Value(d[14..18]) == payloadLen && Value(d[18..22]) == Crc(d[..18])
  {
    hide Crc, Value, BigEndian;
    var h := BuildHeader(msgType, sessionId, payloadLen);
    MagicBytes();
    FieldsOfBytes(h);
  }

  /** Parsing then serialising reproduces every accepted header byte for byte. */
  lemma HeaderExact(d: Text)
    requires |d| == HEADER_SIZE && ParseHeader(d).Some?
    ensures Sealed(ParseHeader(d).value) && HeaderBytes(ParseHeader(d).value) == d
  {
    hide Crc, Covered;
    BytesOfFields(d);
    assert d == d[..18] + d[18..];
  }

  /** Accepted byte strings and sealed headers are in one-to-one correspondence. */
  lemma HeaderAcceptedIff(d: Text, h: BaseHeader)
    requires |d| == HEADER_SIZE
    ensures ParseHeader(d) == Some(h) <==> Sealed(h) && HeaderBytes(h) == d
  {
    hide Crc, Covered, Fields, HeaderBytes;
    if ParseHeader(d) == Some(h) {
      HeaderExact(d);
    }
    if Sealed(h) && HeaderBytes(h) == d {
      HeaderRoundTrip(h);
    }
  }

  lemma BuiltHeaderParses(msgType: Byte, sessionId: u64, payloadLen: u32)
    ensures ParseHeader(HeaderBytes(BuildHeader(msgType, sessionId, payloadLen))) ==
            Some(Seal(BuildHeader(msgType, sessionId, payloadLen)))
  {
    HeaderRoundTrip(BuildHeader(msgType, sessionId, payloadLen));
  }

  /** If one burst of at most 32 bits, at any bit offset, hits the covered part of an accepted
      header, the parser refuses the result. */
  lemma BurstRejected(d: Text, e: Text, before: seq<bool>, u: seq<bool>, v: seq<bool>, after: seq<bool>)
    requires |d| == |e| == HEADER_SIZE && d[18..] == e[18..] && ParseHeader(d).Some?
    requires BitString(d[..18]) == before + u + after && BitString(e[..18]) == before + v + after
    requires |u| == |v| <= 32 && u != v
    ensures ParseHeader(e).None?
  {
    hide BitString, Feed, Crc, Value;
    assert d[18..22] == d[18..] && e[18..22] == e[18..];
    if ParseHeader(e).Some? {
      CrcInjective(d[..18], e[..18]);
      BurstDetected(Ones(), before, u, v, after);
      assert false;
    }
  }

  /** If any of four consecutive covered bytes of an accepted header change, and nothing else,
      the parser refuses the result. */
  lemma WindowRejected(d: Text, e: Text, at: nat)
    requires |d| == |e| == HEADER_SIZE && at + 4 <= 18
    requires d[..at] == e[..at] && d[at + 4..] == e[at + 4..] && d != e
    requires ParseHeader(d).Some?
    ensures ParseHeader(e).None?
  {
    hide Crc, Value;
    assert d[18..22] == d[at + 4..][14 - at..] && e[18..22] == e[at + 4..][14 - at..];
    assert d[at + 4..18] == d[at + 4..][..14 - at] && e[at + 4..18] == e[at + 4..][..14 - at];
    assert d[..18] == d[..at] + d[at..at + 4] + d[at + 4..18];
    assert e[..18] == e[..at] + e[at..at + 4] + e[at + 4..18];
    assert d == d[..at] + d[at..at + 4] + d[at + 4..] && e == e[..at] + e[at..at + 4] + e[at + 4..];
    WindowDetected(d[..at], d[at..at + 4], e[at..at + 4], d[at + 4..18]);
  }

  // ------------------------------------------------------------------ code

  method SerializeHeader(engine: Engine, h: BaseHeader) returns (buffer: Text)
    requires engine.Valid()
    modifies engine.table
    ensures engine.Valid() && buffer == HeaderBytes(h)
  {
    hide Crc, BigEndian;
    buffer := PushBigEndian([], h.magic, 4);
    assert buffer == BigEndian(h.magic, 4);
    buffer := buffer + [h.version];
    buffer := buffer + [h.msgType];
    buffer := PushBigEndian(buffer, h.sessionId, 8);
    buffer := PushBigEndian(buffer, h.payloadLen, 4);
    assert buffer == Covered(h);
    var crc := engine.Crc32(buffer);
    buffer := PushBigEndian(buffer, crc, 4);
  }

  method DeserializeHeader(engine: Engine, data: Text) returns (out: Option<BaseHeader>)
    requires engine.Valid() && |data| >= HEADER_SIZE
    modifies engine.table
    ensures engine.Valid() && out == ParseHeader(data[..HEADER_SIZE])
  {
    hide Crc, Value;
    ghost var d := data[..HEADER_SIZE];
    assert d[0..4] == data[0..4] && d[6..14] == data[6..14];
    assert d[14..18] == data[14..18] && d[18..22] == data[18..22] && d[..18] == data[..18];
    ghost var fields := Fields(d);
    var magic, counter := ReadBigEndian(data, 0, 4);
    var version := data[counter];
    counter := counter + 1;
    var msgType := data[counter];
    counter := counter + 1;
    var sessionId, payloadLen, headerCrc;
    sessionId, counter := ReadBigEndian(data, counter, 8);
    payloadLen, counter := ReadBigEndian(data, counter, 4);
    headerCrc, counter := ReadBigEndian(data, counter, 4);
    var crc := engine.Crc32(data[..18]);
    if magic != NT_MAGIC {
      return None;
    } else if version != NT_VERSION {
      return None;
    } else if headerCrc != crc {
      return None;
    }
    out := Some(BaseHeader(magic, version, msgType, sessionId, payloadLen, headerCrc));
  }
}
