/** The table of devices on the network: packets refresh or add entries, a timed sweep drops them. */
module DeviceTable {
  import opened Bytes
  import Crc32
  import opened Header
  import opened Payloads
  import opened Framing

  /** Seconds without a packet after which a sweep drops a device. */
  const WAIT_TIME := 15
  const BUFFER_MAX_SIZE := 512

  datatype Device = Device(name: Text, ip: Text, tcpPort: u16, lastSeen: int)

  /** A call of `onDeviceFound` or `onDeviceLeft`. */
  datatype Notice = Found(device: Device) | Left(device: Device)

  datatype Service = Service(name: Text, tcpPort: u16, devices: seq<Device>, log: seq<Notice>)

  predicate Expired(d: Device, now: int) { d.lastSeen + WAIT_TIME < now }

  /** The devices that survive a sweep, in their order. */
  function Fresh(devices: seq<Device>, now: int): seq<Device> {
    if devices == [] then [] else
    var rest := Fresh(devices[..|devices| - 1], now);
    if Expired(devices[|devices| - 1], now) then rest else rest + [devices[|devices| - 1]]
  }

  /** The devices that a sweep drops, in their order. */
  function Stale(devices: seq<Device>, now: int): seq<Device> {
    if devices == [] then [] else
    var rest := Stale(devices[..|devices| - 1], now);
    if Expired(devices[|devices| - 1], now) then rest + [devices[|devices| - 1]] else rest
  }

  function Departures(devices: seq<Device>): (r: seq<Notice>)
    ensures |r| == |devices| && forall i :: 0 <= i < |r| ==> r[i] == Left(devices[i])
  {
    seq(|devices|, i requires 0 <= i < |devices| => Left(devices[i]))
  }

  function Sweep(s: Service, now: int): Service {
    s.(devices := Fresh(s.devices, now), log := s.log + Departures(Stale(s.devices, now)))
  }

  /** Position of the first entry with this name, or the length of the table. */
  function IndexOf(devices: seq<Device>, name: Text): (r: nat)
    ensures r <= |devices|
    ensures r < |devices| ==> devices[r].name == name
    ensures forall i :: 0 <= i < r ==> devices[i].name != name
  {
    if devices == [] then 0
    else if devices[0].name == name then 0
    else 1 + IndexOf(devices[1..], name)
  }

  function Lookup(devices: seq<Device>, name: Text): Option<Device> {
    var i := IndexOf(devices, name);
    if i < |devices| then Some(devices[i]) else None
  }

  /** A packet from another device: refresh its entry, or add one and say so. */
  function Hear(s: Service, p: Discovery, ip: Text, now: int): Service {
    if p.deviceName == s.name then s else
    var i := IndexOf(s.devices, p.deviceName);
    if i < |s.devices| then s.(devices := s.devices[i := s.devices[i].(lastSeen := now)])
    else
      var d := Device(p.deviceName, ip, p.tcpPort, now);
      s.(devices := s.devices + [d], log := s.log + [Found(d)])
  }

  /** The packet in a receive buffer, if it is a discovery packet that the parsers accept. */
  function PacketIn(buffer: Text): Option<(Byte, Discovery)>
    requires |buffer| == BUFFER_MAX_SIZE
  {
    match ParseHeader(buffer[..HEADER_SIZE])
    case None => None
    case Some(h) =>
      if h.msgType != DISCOVERY_BROADCAST && h.msgType != DISCOVERY_REPLY then None else
      match ParseDiscovery(Within(buffer[HEADER_SIZE..], h.payloadLen))
      case None => None
      case Some(p) => Some((h.msgType, p))
  }

  /** The handler looks beyond its buffer only for the rest of a name that a header of some discovery
      packet claims to be there. */
  predicate Readable(buffer: Text)
    requires |buffer| == BUFFER_MAX_SIZE
  {
    match ParseHeader(buffer[..HEADER_SIZE])
    case None => true
    case Some(h) =>
      || (h.msgType != DISCOVERY_BROADCAST && h.msgType != DISCOVERY_REPLY)
      || DiscoveryReadable(buffer[HEADER_SIZE..], h.payloadLen)
  }

  /** What a service does with a received datagram: its new state and its answer. Only a broadcast
      from another device is answered. */
  function Handle(s: Service, buffer: Text, ip: Text, now: int): (Service, Option<Text>)
    requires |buffer| == BUFFER_MAX_SIZE
  {
    match PacketIn(buffer)
    case None => (s, None)
    case Some(p) =>
      (Hear(s, p.1, ip, now),
       if p.0 == DISCOVERY_BROADCAST && p.1.deviceName != s.name
       then Some(Announcement(s.name, s.tcpPort, DISCOVERY_REPLY)) else None)
  }

  /** A datagram without a valid header, of another type, or from the service's own name changes nothing
      and gets no answer; a reply gets no answer. */
  lemma HandleIgnores(s: Service, buffer: Text, ip: Text, now: int)
    requires |buffer| == BUFFER_MAX_SIZE
    ensures var h := ParseHeader(buffer[..22]);
            && (h.None? || h.value.msgType !in {0x01, 0x02} ==> Handle(s, buffer, ip, now) == (s, None))
            && (h.Some? && h.value.msgType == 0x02 ==> Handle(s, buffer, ip, now).1.None?)
            && (h.Some? && ParseDiscovery(Within(buffer[22..], h.value.payloadLen)).None? ==>
                  Handle(s, buffer, ip, now) == (s, None))
    ensures PacketIn(buffer).Some? && PacketIn(buffer).value.1.deviceName == s.name ==>
              Handle(s, buffer, ip, now) == (s, None)
  {
    hide ParseHeader, ParseDiscovery, Announcement;
  }

  /** The datagram of a service: its own name and port under a session id of zero. */
  function Announcement(name: Text, port: u16, kind: Byte): Text {
    FrameBytes(AnnouncementFrame(name, port, kind))
  }

  function AnnouncementFrame(name: Text, port: u16, kind: Byte): (f: Frame)
    ensures |f.payload| == 4 + |name| % U16_LIMIT
  {
    Frame(kind, 0, DiscoveryBytes(Discovery(name, port)))
  }

  /** The receive buffer after a datagram: what does not fit is cut off, what it does not reach keeps
      its stale bytes. */
  function Landed(datagram: Text, stale: Text): (buffer: Text)
    requires |stale| == BUFFER_MAX_SIZE
    ensures |buffer| == BUFFER_MAX_SIZE
  {
    if |datagram| < BUFFER_MAX_SIZE then datagram + stale[|datagram|..] else datagram[..BUFFER_MAX_SIZE]
  }

  /** Names that leave room for header, port and length in the receive buffer. */
  const MAX_NAME := 486

  /** A datagram is one frame: its kind, session id zero, and the name and port of the service. */
  lemma AnnouncementIsFrame(name: Text, port: u16, kind: Byte)
    ensures ReadFrame(Announcement(name, port, kind)) == Some(Frame(kind, 0, DiscoveryBytes(Discovery(name, port))))
    ensures |Announcement(name, port, kind)| == 26 + |name| % 65536
  {
    hide ReadFrame, FrameBytes, DiscoveryBytes;
    ReadFrameExact(AnnouncementFrame(name, port, kind), []);
    assert Announcement(name, port, kind) + [] == Announcement(name, port, kind);
  }

  /** What a listener sees of an announcement: its header, and as much of its payload as fits. */
  lemma LandedAnnouncement(name: Text, port: u16, kind: Byte, stale: Text)
    requires |stale| == BUFFER_MAX_SIZE
    ensures var buffer, f := Landed(Announcement(name, port, kind), stale), AnnouncementFrame(name, port, kind);
            && ParseHeader(buffer[..HEADER_SIZE]) == Some(Seal(FrameHeader(f)))
            && Within(buffer[HEADER_SIZE..], |f.payload|) == Within(f.payload, BUFFER_MAX_SIZE - HEADER_SIZE)
  {
    hide HeaderBytes, ParseHeader, Seal, DiscoveryBytes;
    var f := AnnouncementFrame(name, port, kind);
    var bytes := FrameBytes(f);
    var buffer := Landed(bytes, stale);
    FrameInside([], f, []);
    assert [] + bytes + [] == bytes;
    assert buffer[..HEADER_SIZE] == bytes[0..HEADER_SIZE];
    assert bytes[HEADER_SIZE..] == f.payload + [];
    assert Within(buffer[HEADER_SIZE..], |f.payload|) == Within(f.payload, BUFFER_MAX_SIZE - HEADER_SIZE);
  }

  lemma ShortenedName(p: Discovery, k: nat)
    requires 4 <= k < |DiscoveryBytes(p)|
    ensures ParseDiscovery(DiscoveryBytes(p)[..k]).None?
  {
    hide Value, BigEndian;
    NameLengthField(p);
    assert DiscoveryBytes(p)[..k][2..4] == DiscoveryBytes(p)[2..4];
  }

  /** A listener hears a service exactly when the service's name has at most 486 bytes, whatever the
      listener's buffer held before. */
  lemma AnnouncementIsHeard(name: Text, port: u16, kind: Byte, stale: Text)
    requires kind == DISCOVERY_BROADCAST || kind == DISCOVERY_REPLY
    requires |stale| == BUFFER_MAX_SIZE
    ensures PacketIn(Landed(Announcement(name, port, kind), stale)) == Some((kind, Discovery(name, port)))
            <==> |name| <= MAX_NAME
  {
    hide ParseHeader, ParseDiscovery, Seal, DiscoveryBytes, Announcement, Landed;
    var p, f := Discovery(name, port), AnnouncementFrame(name, port, kind);
    LandedAnnouncement(name, port, kind, stale);
    SealedLength(f);
    DiscoveryRoundTrip(p);
    if |f.payload| > BUFFER_MAX_SIZE - HEADER_SIZE {
      ShortenedName(p, BUFFER_MAX_SIZE - HEADER_SIZE);
    } else {
      assert |Cut(name)| == |name| <==> |name| <= MAX_NAME;
      assert |name| <= MAX_NAME ==> Cut(name) == name;
    }
  }

  lemma NameLengthField(p: Discovery)
    ensures Value(DiscoveryBytes(p)[2..4]) == |Cut(p.deviceName)|
  {
    hide Counted, Value, BigEndian;
    var s, d := Cut(p.deviceName), DiscoveryBytes(p);
    CutShort(s);
    assert d[2..] == Counted(s) + [];
    CountedAt(d, 2, s, []);
  }

  /** An announcement keeps the handler inside its buffer exactly when the part of the name that the
      length field describes has at most 486 bytes. */
  lemma AnnouncementIsReadable(name: Text, port: u16, kind: Byte, stale: Text)
    requires kind == DISCOVERY_BROADCAST || kind == DISCOVERY_REPLY
    requires |stale| == BUFFER_MAX_SIZE
    ensures Readable(Landed(Announcement(name, port, kind), stale)) <==> |Cut(name)| <= MAX_NAME
  {
    hide ParseHeader, Seal, DiscoveryBytes, Announcement, Landed, Value, Cut;
    var f := AnnouncementFrame(name, port, kind);
    var payload := Landed(Announcement(name, port, kind), stale)[HEADER_SIZE..];
    LandedAnnouncement(name, port, kind, stale);
    SealedLength(f);
    NameLengthField(Discovery(name, port));
    assert payload[2..4] == Within(payload, |f.payload|)[2..4] == f.payload[2..4];
  }

  lemma SealedLength(f: Frame)
    ensures Seal(FrameHeader(f)).payloadLen == |f.payload| && Seal(FrameHeader(f)).msgType == f.msgType
  {
  }

  // ------------------------------------------------------------------ the service object

  lemma SweepStep(devices: seq<Device>, i: nat, now: int)
    requires i < |devices|
    ensures Fresh(devices[..i + 1], now) ==
            Fresh(devices[..i], now) + if Expired(devices[i], now) then [] else [devices[i]]
    ensures Stale(devices[..i + 1], now) ==
            Stale(devices[..i], now) + if Expired(devices[i], now) then [devices[i]] else []
  {
    assert devices[..i + 1][..i] == devices[..i];
  }

  class DiscoveryService {
    const engine: Crc32.Engine
    var deviceName: Text
    var tcpPort: u16
    var discoveredDevices: seq<Device>
    var log: seq<Notice>

    ghost function Model(): Service
      reads this
    {
      Service(deviceName, tcpPort, discoveredDevices, log)
    }

    constructor (engine: Crc32.Engine, deviceName: Text, tcpPort: u16)
      ensures Model() == Service(deviceName, tcpPort, [], []) && this.engine == engine
    {
      this.engine, this.deviceName, this.tcpPort := engine, deviceName, tcpPort;
      discoveredDevices, log := [], [];
    }

    /** Erases while it iterates; the result is the order-preserving filter. */
    method CheckExpiredDevices(now: int)
      modifies this
      ensures Model() == Sweep(old(Model()), now)
    {
      ghost var all := discoveredDevices;
      var expired: seq<Device> := [];
      var i := 0;
      ghost var k := 0;
      while i < |discoveredDevices|
        invariant 0 <= i <= |discoveredDevices| && 0 <= k <= |all| && k - i == |all| - |discoveredDevices|
        invariant discoveredDevices[..i] == Fresh(all[..k], now) && discoveredDevices[i..] == all[k..]
        invariant expired == Stale(all[..k], now)
        invariant deviceName == old(deviceName) && tcpPort == old(tcpPort) && log == old(log)
        decreases |discoveredDevices| - i
      {
        SweepStep(all, k, now);
        assert discoveredDevices[i] == discoveredDevices[i..][0] == all[k];
        ghost var before := discoveredDevices;
        if discoveredDevices[i].lastSeen + WAIT_TIME < now {
          expired := expired + [discoveredDevices[i]];
          discoveredDevices := discoveredDevices[..i] + discoveredDevices[i + 1..];
          i := i - 1;
        }
        i := i + 1;
        assert discoveredDevices[i..] == before[k - (|all| - |before|)..][1..] == all[k + 1..];
        k := k + 1;
      }
      assert all[..|all|] == all && discoveredDevices[..i] == discoveredDevices;
      var j := 0;
      while j < |expired|
        invariant 0 <= j <= |expired| && log == old(log) + Departures(expired[..j])
        invariant deviceName == old(deviceName) && tcpPort == old(tcpPort) && discoveredDevices == Fresh(all, now)
      {
        log := log + [Left(expired[j])];
        j := j + 1;
        assert Departures(expired[..j]) == Departures(expired[..j - 1]) + [Left(expired[j - 1])];
      }
      assert expired[..|expired|] == expired;
    }

    /** The list part of the packet handler, the same for broadcasts and replies. */
    method NotePacket(dp: Discovery, ip: Text, now: int)
      requires dp.deviceName != deviceName
      modifies this`discoveredDevices, this`log
      ensures Model() == Hear(old(Model()), dp, ip, now)
    {
      var deviceInList := false;
      var i := 0;
      while i < |discoveredDevices|
        invariant 0 <= i <= |discoveredDevices| && discoveredDevices == old(discoveredDevices)
        invariant forall k :: 0 <= k < i ==> discoveredDevices[k].name != dp.deviceName
        invariant !deviceInList
      {
        if discoveredDevices[i].name == dp.deviceName {
          assert IndexOf(discoveredDevices, dp.deviceName) == i;
          discoveredDevices := discoveredDevices[i := discoveredDevices[i].(lastSeen := now)];
          deviceInList := true;
          break;
        }
        i := i + 1;
      }
      if !deviceInList {
        var dd := Device(dp.deviceName, ip, dp.tcpPort, now);
        discoveredDevices := discoveredDevices + [dd];
        log := log + [Found(dd)];
      }
    }

    /** The datagram handler. */
    method OnDatagram(buffer: Text, ip: Text, now: int) returns (reply: Option<Text>)
      requires engine.Valid() && |buffer| == BUFFER_MAX_SIZE && Readable(buffer)
      modifies this, engine.table
      ensures engine.Valid()
      ensures (Model(), reply) == Handle(old(Model()), buffer, ip, now)
    {
      hide ParseHeader, ParseDiscovery, HeaderBytes, DiscoveryBytes;
      reply := None;
      var base := DeserializeHeader(engine, buffer);
      if base.None? {
        return;
      }
      if base.value.msgType != DISCOVERY_BROADCAST && base.value.msgType != DISCOVERY_REPLY {
        return;
      }
      var payloadLen := base.value.payloadLen;
      var dp := DeserializeDiscovery(buffer[HEADER_SIZE..], payloadLen);
      if dp.None? {
        return;
      }
      if dp.value.deviceName == deviceName {
        return;
      }
      NotePacket(dp.value, ip, now);
      if base.value.msgType == DISCOVERY_BROADCAST {
        var message := BuildAnnouncement(DISCOVERY_REPLY);
        reply := Some(message);
      }
    }

    /** The bytes of `sendBroadcast` and of a reply. */
    method BuildAnnouncement(kind: Byte) returns (message: Text)
      requires engine.Valid()
      modifies engine.table
      ensures engine.Valid() && message == Announcement(deviceName, tcpPort, kind)
    {
      hide FrameBytes, DiscoveryBytes;
      var payload := SerializeDiscovery(Discovery(deviceName, tcpPort));
      assert payload == AnnouncementFrame(deviceName, tcpPort, kind).payload;
      message := BuildMessage(engine, kind, 0, payload);
    }

    /** Later packets from a device of that name are ignored; its entry stays until it expires. */
    method SetDeviceName(name: Text)
      modifies this`deviceName
      ensures Model() == old(Model()).(name := name)
    {
      deviceName := name;
    }
  }
}
