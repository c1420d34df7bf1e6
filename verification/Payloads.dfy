/** The payloads that follow a header. */
module Payloads {
  import opened Bytes

  const DIGEST_SIZE := 32

  type Digest = d: Text | |d| == DIGEST_SIZE witness seq(DIGEST_SIZE, _ => 0)

  datatype Offer = Offer(fileSize: u64, resumeOffset: u64, sha256: Digest, fileName: Text, deviceName: Text)
  datatype Error = Error(code: Byte, message: Text)
  datatype Discovery = Discovery(deviceName: Text, tcpPort: u16)

  // ------------------------------------------------- strings behind a 16-bit length

  /** What a 16-bit length field can describe of `s`. */
  function Cut(s: Text): (r: Text)
    ensures r <= s && |r| == |s| % U16_LIMIT
  {
    s[..|s| % U16_LIMIT]
  }

  /** A length and as many bytes as the string has, even when the length field wraps. */
  function Counted(s: Text): (r: Text)
    ensures |r| == 2 + |s|
  {
    BigEndian(|s|, 2) + s
  }

  lemma CountedLength(s: Text, rest: Text)
    ensures Value((Counted(s) + rest)[..2]) == |s| % U16_LIMIT
    ensures (Counted(s) + rest)[2..] == s + rest
  {
    LimitValues();
    ValueOfBigEndian(|s|, 2);
    assert (Counted(s) + rest)[..2] == BigEndian(|s|, 2);
  }

  lemma CountedOfSlice(d: Text, n: nat)
    requires |d| >= 2 + n && n == Value(d[..2])
    ensures n < U16_LIMIT && Counted(d[2..2 + n]) == d[..2 + n]
  {
    LimitValues();
    BigEndianOfValue(d[..2]);
    assert d[..2 + n] == d[..2] + d[2..2 + n];
  }

  // ------------------------------------------------------------------ offer

  function OfferFixed(p: Offer): (r: Text)
    ensures |r| == 48
  {
    BigEndian(p.fileSize, 8) + BigEndian(p.resumeOffset, 8) + p.sha256
  }

  function OfferBytes(p: Offer): (r: Text)
    ensures |r| == 52 + |p.fileName| + |p.deviceName|
  {
    OfferFixed(p) + Counted(p.fileName) + Counted(p.deviceName)
  }

  function ParseOffer(d: Text): Option<Offer> {
    if |d| < 50 then None else
    LimitValues();
    BigEndianOfValue(d[0..8]);
    BigEndianOfValue(d[8..16]);
    var fileNameLength := Value(d[48..50]);
    if 50 + fileNameLength > |d| then None
    else if 52 + fileNameLength > |d| then None
    else
      var at := 52 + fileNameLength;
      var deviceNameLength := Value(d[at - 2..at]);
      if at + deviceNameLength > |d| then None
      else Some(Offer(Value(d[0..8]), Value(d[8..16]), d[16..48], d[50..at - 2], d[at..at + deviceNameLength]))
  }

  lemma OfferFixedParts(p: Offer, rest: Text)
    ensures var d := OfferFixed(p) + rest;
            Value(d[0..8]) == p.fileSize && Value(d[8..16]) == p.resumeOffset && d[16..48] == p.sha256
  {
    var d := OfferFixed(p) + rest;
    LimitValues();
    assert d[0..8] == BigEndian(p.fileSize, 8);
    assert d[8..16] == BigEndian(p.resumeOffset, 8);
    FieldRoundTrip(p.fileSize, 8);
    FieldRoundTrip(p.resumeOffset, 8);
  }

  lemma CountedAt(d: Text, k: nat, s: Text, rest: Text)
    requires k <= |d| && d[k..] == Counted(s) + rest
    ensures k + 2 <= |d| && Value(d[k..k + 2]) == |s| % U16_LIMIT && d[k + 2..] == s + rest
  {
    hide Counted, Value;
    CountedLength(s, rest);
    assert d[k..k + 2] == d[k..][..2];
    assert d[k + 2..] == d[k..][2..];
  }

  lemma CutShort(s: Text)
    requires |s| < U16_LIMIT
    ensures Cut(s) == s && |s| % U16_LIMIT == |s|
  {
  }

  /** The parser's answer once the two lengths are known and both names are there. */
  lemma ParsedParts(d: Text, n: nat, m: nat)
    requires 52 + n + m <= |d| && n == Value(d[48..50]) && m == Value(d[50 + n..52 + n])
    ensures Value(d[0..8]) < U64_LIMIT && Value(d[8..16]) < U64_LIMIT
    ensures ParseOffer(d) ==
            Some(Offer(Value(d[0..8]), Value(d[8..16]), d[16..48], d[50..50 + n], d[52 + n..52 + n + m]))
  {
    hide Value, BigEndian;
    LimitValues();
    BigEndianOfValue(d[0..8]);
    BigEndianOfValue(d[8..16]);
  }

  /** An offer with bytes behind it parses to itself, with the device name cut to what its
      length field can describe, whenever the file name length fits its own field. */
  lemma OfferParses(p: Offer, rest: Text)
    requires |p.fileName| < U16_LIMIT
    ensures ParseOffer(OfferBytes(p) + rest) == Some(p.(deviceName := Cut(p.deviceName)))
  {
    hide OfferFixed, Counted, Value, BigEndian, ParseOffer;
    var d, n, m := OfferBytes(p) + rest, |p.fileName|, |p.deviceName| % U16_LIMIT;
    var tail := Counted(p.deviceName) + rest;
    assert d == OfferFixed(p) + (Counted(p.fileName) + tail);
    OfferFixedParts(p, Counted(p.fileName) + tail);
    CutShort(p.fileName);
    CountedAt(d, 48, p.fileName, tail);
    assert d[50..50 + n] == d[50..][..n] == p.fileName;
    assert d[50 + n..] == d[50..][n..] == tail;
    CountedAt(d, 50 + n, p.deviceName, rest);
    assert d[52 + n..52 + n + m] == d[52 + n..][..m] == Cut(p.deviceName);
    ParsedParts(d, n, m);
  }

  /** Every place of an encoded offer. */
  lemma OfferLayout(p: Offer)
    ensures var d, n := OfferBytes(p), |p.fileName|;
            && |d| == 52 + n + |p.deviceName|
            && Value(d[0..8]) == p.fileSize && Value(d[8..16]) == p.resumeOffset && d[16..48] == p.sha256
            && Value(d[48..50]) == n % 65536 && d[50..50 + n] == p.fileName
            && Value(d[50 + n..52 + n]) == |p.deviceName| % 65536 && d[52 + n..] == p.deviceName
  {
    hide OfferFixed, Counted, Value, BigEndian;
    var d, n := OfferBytes(p), |p.fileName|;
    var tail := Counted(p.deviceName) + [];
    assert d == OfferFixed(p) + (Counted(p.fileName) + tail);
    OfferFixedParts(p, Counted(p.fileName) + tail);
    CountedAt(d, 48, p.fileName, tail);
    assert d[50..50 + n] == d[50..][..n] == p.fileName;
    assert d[50 + n..] == d[50..][n..] == tail;
    CountedAt(d, 50 + n, p.deviceName, []);
  }

  /** The offer round trip holds exactly for file names whose length fits 16 bits. */
  lemma OfferRoundTrip(p: Offer)
    ensures ParseOffer(OfferBytes(p)) == Some(p.(deviceName := Cut(p.deviceName))) <==> |p.fileName| < U16_LIMIT
  {
    hide OfferBytes;
    if |p.fileName| < U16_LIMIT {
      OfferParses(p, []);
      assert OfferBytes(p) + [] == OfferBytes(p);
    } else {
      ParsedNamesAreShort(OfferBytes(p));
    }
  }

  lemma ParsedNamesAreShort(d: Text)
    ensures ParseOffer(d).Some? ==>
              |ParseOffer(d).value.fileName| < U16_LIMIT && |ParseOffer(d).value.deviceName| < U16_LIMIT
  {
    if ParseOffer(d).Some? {
      LimitValues();
      var at := 52 + Value(d[48..50]);
      BigEndianOfValue(d[48..50]);
      BigEndianOfValue(d[at - 2..at]);
    }
  }

  lemma FixedReencodes(d: Text)
    requires ParseOffer(d).Some?
    ensures OfferFixed(ParseOffer(d).value) == d[..48]
  {
    hide Value, BigEndian;
    LimitValues();
    BigEndianOfValue(d[0..8]);
    BigEndianOfValue(d[8..16]);
    assert d[..48] == d[0..8] + d[8..16] + d[16..48];
  }

  lemma OfferReencodes(d: Text)
    requires ParseOffer(d).Some?
    ensures var p := ParseOffer(d).value;
            52 + |p.fileName| + |p.deviceName| <= |d| &&
            OfferBytes(p) == d[..52 + |p.fileName| + |p.deviceName|]
  {
    var p := ParseOffer(d).value;
    var n, m := |p.fileName|, |p.deviceName|;
    FixedReencodes(d);
    hide OfferFixed, Counted, Value, BigEndian;
    assert d[48..50] == d[48..][..2] && d[50 + n..52 + n] == d[50 + n..][..2];
    CountedOfSlice(d[48..], n);
    assert d[48..][2..2 + n] == p.fileName;
    CountedOfSlice(d[50 + n..], m);
    assert d[50 + n..][2..2 + m] == p.deviceName;
    hide ParseOffer;
    assert d[..52 + n + m] == d[..48] + d[48..][..2 + n] + d[50 + n..][..2 + m];
  }

  /** Exactly the accepted inputs: those that begin with the encoding of an offer whose names
      both fit 16 bits, and that offer is the answer. */
  lemma OfferAcceptedIff(d: Text, p: Offer)
    ensures ParseOffer(d) == Some(p) <==>
            |p.fileName| < U16_LIMIT && |p.deviceName| < U16_LIMIT && OfferBytes(p) <= d
  {
    hide OfferBytes, ParseOffer, Cut;
    if ParseOffer(d) == Some(p) {
      OfferReencodes(d);
      ParsedNamesAreShort(d);
    }
    if |p.fileName| < U16_LIMIT && |p.deviceName| < U16_LIMIT && OfferBytes(p) <= d {
      var rest := d[|OfferBytes(p)|..];
      assert d == OfferBytes(p) + rest;
      OfferParses(p, rest);
      CutShort(p.deviceName);
    }
  }

  // --------------------------------------------------------- error and discovery

  function ErrorBytes(p: Error): Text {
    [p.code] + Counted(Cut(p.message))
  }

  function ParseError(d: Text): Option<Error> {
    if |d| < 3 then None
    else if 3 + Value(d[1..3]) > |d| then None
    else Some(Error(d[0], d[3..3 + Value(d[1..3])]))
  }

  function DiscoveryBytes(p: Discovery): Text {
    BigEndian(p.tcpPort, 2) + Counted(Cut(p.deviceName))
  }

  function ParseDiscovery(d: Text): Option<Discovery> {
    if |d| < 4 then None else
    LimitValues();
    BigEndianOfValue(d[0..2]);
    if 4 + Value(d[2..4]) > |d| then None
    else Some(Discovery(d[4..4 + Value(d[2..4])], Value(d[0..2])))
  }

  /** Total round trip: every error payload decodes to its code and its cut message. */
  lemma ErrorRoundTrip(p: Error)
    ensures ParseError(ErrorBytes(p)) == Some(p.(message := Cut(p.message)))
  {
    hide Counted, Value;
    var s := Cut(p.message);
    var d := ErrorBytes(p);
    CutShort(s);
    assert d[1..] == Counted(s) + [];
    CountedAt(d, 1, s, []);
    assert d[3..3 + |s|] == d[3..][..|s|] == s;
  }

  /** Total round trip: every discovery payload decodes to its port and its cut name. */
  lemma DiscoveryRoundTrip(p: Discovery)
    ensures ParseDiscovery(DiscoveryBytes(p)) == Some(p.(deviceName := Cut(p.deviceName)))
  {
    hide Counted, Value, BigEndian;
    var s := Cut(p.deviceName);
    var d := DiscoveryBytes(p);
    LimitValues();
    FieldRoundTrip(p.tcpPort, 2);
    CutShort(s);
    assert d[0..2] == BigEndian(p.tcpPort, 2);
    assert d[2..] == Counted(s) + [];
    CountedAt(d, 2, s, []);
    assert d[4..4 + |s|] == d[4..][..|s|] == s;
  }

  /** Every place of the encoded error and discovery payloads. */
  lemma ShortLayouts(e: Error, p: Discovery)
    ensures var d := ErrorBytes(e);
            && d != [] && d[0] == e.code && |d| == 3 + |Cut(e.message)|
            && Value(d[1..3]) == |e.message| % 65536 && d[3..] == Cut(e.message)
    ensures var d := DiscoveryBytes(p);
            && |d| == 4 + |Cut(p.deviceName)|
            && Value(d[0..2]) == p.tcpPort && Value(d[2..4]) == |p.deviceName| % 65536 && d[4..] == Cut(p.deviceName)
  {
    hide Counted, Value, BigEndian;
    var d, f := ErrorBytes(e), DiscoveryBytes(p);
    CutShort(Cut(e.message));
    CutShort(Cut(p.deviceName));
    assert d[1..] == Counted(Cut(e.message)) + [];
    CountedAt(d, 1, Cut(e.message), []);
    LimitValues();
    FieldRoundTrip(p.tcpPort, 2);
    assert f[0..2] == BigEndian(p.tcpPort, 2);
    assert f[2..] == Counted(Cut(p.deviceName)) + [];
    CountedAt(f, 2, Cut(p.deviceName), []);
  }

  // ------------------------------------------------------- one-byte payloads

  function AckBytes(ok: bool): Text { [if ok then 1 else 0] }

  function ParseAck(d: Text): Option<bool> {
    if |d| < 1 then None else Some(d[0] != 0)
  }

  /** Both verdicts survive the wire, and any nonzero byte means yes. */
  lemma AckRoundTrip(ok: bool, b: Byte, rest: Text)
    ensures ParseAck(AckBytes(ok)) == Some(ok)
    ensures ParseAck([b] + rest) == Some(b != 0)
  {
  }

  function RejectBytes(reason: Byte): Text { [reason] }

  // ------------------------------------------------------------------ code

  /** Appends the first `count` bytes of `s`, one at a time. */
  method PushText(buffer: Text, s: Text, count: nat) returns (out: Text)
    requires count <= |s|
    ensures out == buffer + s[..count]
  {
    out := buffer;
    var i := 0;
    while i < count
      invariant i <= count
      invariant out == buffer + s[..i]
    {
      out := out + [s[i]];
      i := i + 1;
    }
  }

  /** Collects `count` bytes from the counter on, one at a time, and advances the counter. */
  method ReadText(data: Text, counter: nat, count: nat) returns (s: Text, next: nat)
    requires counter + count <= |data|
    ensures s == data[counter..counter + count]
    ensures next == counter + count
  {
    s, next := [], counter;
    var i := 0;
    while i < count
      invariant i <= count && next == counter + i
      invariant s == data[counter..next]
    {
      s := s + [data[next]];
      next, i := next + 1, i + 1;
    }
  }

  method SerializeOffer(p: Offer) returns (buffer: Text)
    ensures buffer == OfferBytes(p)
  {
    buffer := PushBigEndian([], p.fileSize, 8);
    buffer := PushBigEndian(buffer, p.resumeOffset, 8);
    buffer := PushText(buffer, p.sha256, 32);
    assert buffer == OfferFixed(p);
    buffer := PushBigEndian(buffer, |p.fileName|, 2);
    buffer := PushText(buffer, p.fileName, |p.fileName|);
    buffer := PushBigEndian(buffer, |p.deviceName|, 2);
    buffer := PushText(buffer, p.deviceName, |p.deviceName|);
    assert buffer == OfferFixed(p) + Counted(p.fileName) + Counted(p.deviceName);
  }

  /** The device name length is read before it is checked against `len`. The parser stays inside the
      backing buffer exactly when that field does: always with two bytes to spare, and also without
      them on every well-formed offer. */
  predicate OfferReadable(data: Text, len: nat) {
    && len <= |data|
    && (len >= 50 && 50 + Value(data[48..50]) <= len ==> 52 + Value(data[48..50]) <= |data|)
  }

  lemma OfferReadableWhen(data: Text, len: nat)
    requires len <= |data|
    ensures len + 2 <= |data| || ParseOffer(data[..len]).Some? ==> OfferReadable(data, len)
  {
    hide Value;
    assert len >= 50 ==> data[..len][48..50] == data[48..50];
  }

  /** What stands behind the first `len` bytes never changes the answer. */
  method DeserializeOffer(data: Text, len: nat) returns (out: Option<Offer>)
    requires OfferReadable(data, len)
    ensures out == ParseOffer(data[..len])
  {
    hide Value;
    if len < 50 {
      return None;
    }
    ghost var d := data[..len];
    LimitValues();
    BigEndianOfValue(d[0..8]);
    BigEndianOfValue(d[8..16]);
    assert d[0..8] == data[0..8] && d[8..16] == data[8..16] && d[16..48] == data[16..48] && d[48..50] == data[48..50];
    var counter := 0;
    var fileSize, resumeOffset, sha256, fileNameLength, fileName, deviceNameLength, deviceName;
    fileSize, counter := ReadBigEndian(data, counter, 8);
    resumeOffset, counter := ReadBigEndian(data, counter, 8);
    sha256, counter := ReadText(data, counter, 32);
    fileNameLength, counter := ReadBigEndian(data, counter, 2);
    if counter + fileNameLength > len {
      return None;
    }
    fileName, counter := ReadText(data, counter, fileNameLength);
    deviceNameLength, counter := ReadBigEndian(data, counter, 2);
    if counter + deviceNameLength > len {
      assert counter <= len ==> d[counter - 2..counter] == data[counter - 2..counter];
      return None;
    }
    assert d[counter - 2..counter] == data[counter - 2..counter];
    assert d[50..counter - 2] == data[50..counter - 2];
    assert d[counter..counter + deviceNameLength] == data[counter..counter + deviceNameLength];
    deviceName, counter := ReadText(data, counter, deviceNameLength);
    out := Some(Offer(fileSize, resumeOffset, sha256, fileName, deviceName));
  }

  method SerializeError(p: Error) returns (buffer: Text)
    ensures buffer == ErrorBytes(p)
  {
    buffer := [p.code];
    var length := |p.message| % U16_LIMIT;
    buffer := PushBigEndian(buffer, length, 2);
    buffer := PushText(buffer, p.message, length);
  }

  method DeserializeError(data: Text, len: nat) returns (out: Option<Error>)
    requires len <= |data|
    ensures out == ParseError(data[..len])
  {
    if len < 3 {
      return None;
    }
    ghost var d := data[..len];
    assert d[1..3] == data[1..3];
    var code := data[0];
    var length, counter := ReadBigEndian(data, 1, 2);
    if counter + length > len {
      return None;
    }
    var message;
    message, counter := ReadText(data, counter, length);
    assert d[3..3 + length] == data[3..3 + length];
    out := Some(Error(code, message));
  }

  method SerializeDiscovery(p: Discovery) returns (buffer: Text)
    ensures buffer == DiscoveryBytes(p)
  {
    buffer := PushBigEndian([], p.tcpPort, 2);
    var length := |p.deviceName| % U16_LIMIT;
    buffer := PushBigEndian(buffer, length, 2);
    buffer := PushText(buffer, p.deviceName, length);
    assert buffer == BigEndian(p.tcpPort, 2) + Counted(Cut(p.deviceName));
  }

  /** `len` comes from the header and may exceed the buffer. The parser stays inside the buffer exactly
      when both fields do and, if it goes on to read the name, the name does too. */
  predicate DiscoveryReadable(data: Text, len: nat) {
    len < 4 || (|data| >= 4 && (4 + Value(data[2..4]) <= len ==> 4 + Value(data[2..4]) <= |data|))
  }

  /** The first `len` bytes, or all there are. */
  function Within(data: Text, len: nat): Text {
    if len < |data| then data[..len] else data
  }

  method DeserializeDiscovery(data: Text, len: nat) returns (out: Option<Discovery>)
    requires DiscoveryReadable(data, len)
    ensures out == ParseDiscovery(Within(data, len))
  {
    if len < 4 {
      return None;
    }
    ghost var d := Within(data, len);
    assert d[0..2] == data[0..2] && d[2..4] == data[2..4];
    LimitValues();
    BigEndianOfValue(d[0..2]);
    var tcpPort, counter := ReadBigEndian(data, 0, 2);
    var length;
    length, counter := ReadBigEndian(data, counter, 2);
    if counter + length > len {
      return None;
    }
    var name;
    name, counter := ReadText(data, counter, length);
    assert d[4..4 + length] == data[4..4 + length];
    out := Some(Discovery(name, tcpPort));
  }
}
