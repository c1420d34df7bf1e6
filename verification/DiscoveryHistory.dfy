/** The device table as a function of what was heard and when the sweeps ran. */
module DiscoveryHistory {
  import opened Bytes
  import opened Payloads
  import opened DeviceTable

  datatype Happening =
    | Heard(packet: Discovery, ip: Text, at: int)
    | Swept(at: int)
    | Renamed(name: Text, at: int)

  function Happen(s: Service, e: Happening): Service {
    match e
    case Heard(p, ip, at) => Hear(s, p, ip, at)
    case Swept(at) => Sweep(s, at)
    case Renamed(name, _) => s.(name := name)
  }

  /** The service's own name after a history: the latest one it was given. */
  function OwnName(own: Text, h: seq<Happening>): Text {
    if h == [] then own
    else if h[|h| - 1].Renamed? then h[|h| - 1].name
    else OwnName(own, h[..|h| - 1])
  }

  /** The service after a history, from an empty table. */
  function After(name: Text, port: u16, h: seq<Happening>): (r: Service)
    ensures r.name == OwnName(name, h) && r.tcpPort == port
    decreases |h|
  {
    if h == [] then Service(name, port, [], []) else Happen(After(name, port, h[..|h| - 1]), h[|h| - 1])
  }

  /** A steady clock. */
  predicate Monotone(h: seq<Happening>) {
    forall i, j :: 0 <= i <= j < |h| ==> h[i].at <= h[j].at
  }

  /** Event `j` is a packet from another device called `name`: the service itself was not called so. */
  predicate From(own: Text, h: seq<Happening>, j: int, name: Text) {
    0 <= j < |h| && h[j].Heard? && h[j].packet.deviceName == name && OwnName(own, h[..j]) != name
  }

  /** `j` is the latest packet from `name` among the first `k` events. */
  predicate Latest(own: Text, h: seq<Happening>, k: nat, j: int, name: Text) {
    From(own, h, j, name) && j < k && forall m :: j < m < k ==> !From(own, h, m, name)
  }

  // ------------------------------------------------------------------ unique names

  predicate Unique(devices: seq<Device>) {
    forall i, j :: 0 <= i < j < |devices| ==> devices[i].name != devices[j].name
  }

  lemma LookupUnique(devices: seq<Device>, i: nat)
    requires Unique(devices) && i < |devices|
    ensures Lookup(devices, devices[i].name) == Some(devices[i])
  {
    var k := IndexOf(devices, devices[i].name);
    assert k <= i;
  }

  lemma {:induction false} FreshMembers(devices: seq<Device>, now: int, d: Device)
    ensures d in Fresh(devices, now) <==> d in devices && !Expired(d, now)
    decreases |devices|
  {
    if devices == [] {
    } else {
      var n := |devices| - 1;
      FreshMembers(devices[..n], now, d);
      assert devices == devices[..n] + [devices[n]];
    }
  }

  lemma {:induction false} FreshUnique(devices: seq<Device>, now: int)
    requires Unique(devices)
    ensures Unique(Fresh(devices, now))
    decreases |devices|
  {
    if devices == [] {
    } else {
      var n := |devices| - 1;
      var rest := Fresh(devices[..n], now);
      FreshUnique(devices[..n], now);
      forall i | 0 <= i < |rest| ensures rest[i].name != devices[n].name {
        FreshMembers(devices[..n], now, rest[i]);
        assert rest[i] in devices[..n];
      }
    }
  }

  lemma LookupMember(devices: seq<Device>, name: Text, d: Device)
    requires Unique(devices)
    ensures Lookup(devices, name) == Some(d) <==> d in devices && d.name == name
    ensures Lookup(devices, name).None? <==> forall e :: e in devices ==> e.name != name
  {
    if d in devices && d.name == name {
      var i :| 0 <= i < |devices| && devices[i] == d;
      LookupUnique(devices, i);
    }
    if Lookup(devices, name).Some? {
      assert devices[IndexOf(devices, name)] in devices;
    }
  }

  lemma LookupFresh(devices: seq<Device>, now: int, name: Text)
    requires Unique(devices)
    ensures Lookup(Fresh(devices, now), name) ==
            match Lookup(devices, name)
            case None => None
            case Some(d) => if Expired(d, now) then None else Some(d)
  {
    FreshUnique(devices, now);
    var before := Lookup(devices, name);
    var after := Lookup(Fresh(devices, now), name);
    if after.Some? {
      var d := after.value;
      LookupMember(Fresh(devices, now), name, d);
      FreshMembers(devices, now, d);
      LookupMember(devices, name, d);
    }
    if before.Some? && !Expired(before.value, now) {
      var d := before.value;
      LookupMember(devices, name, d);
      FreshMembers(devices, now, d);
      LookupMember(Fresh(devices, now), name, d);
    }
  }

  lemma LookupHear(s: Service, p: Discovery, ip: Text, at: int, name: Text)
    requires Unique(s.devices)
    ensures Unique(Hear(s, p, ip, at).devices)
    ensures Lookup(Hear(s, p, ip, at).devices, name) ==
            if name == s.name || name != p.deviceName then Lookup(s.devices, name)
            else match Lookup(s.devices, name)
                 case None => Some(Device(name, ip, p.tcpPort, at))
                 case Some(d) => Some(d.(lastSeen := at))
  {
    if p.deviceName != s.name {
      var ds := s.devices;
      var i := IndexOf(ds, p.deviceName);
      var es := Hear(s, p, ip, at).devices;
      assert forall k :: 0 <= k < |ds| ==> es[k].name == ds[k].name;
      assert Unique(es);
      var a := IndexOf(ds, name);
      if a < |ds| {
        LookupUnique(es, a);
      } else if name == p.deviceName {
        LookupUnique(es, |ds|);
      } else {
        assert forall k :: 0 <= k < |es| ==> es[k].name != name;
      }
    }
  }

  // ------------------------------------------------------------------ the table and the history

  lemma {:induction false} TableUnique(name: Text, port: u16, h: seq<Happening>)
    ensures Unique(After(name, port, h).devices)
    decreases |h|
  {
    if h == [] {
    } else {
      var before := After(name, port, h[..|h| - 1]);
      TableUnique(name, port, h[..|h| - 1]);
      match h[|h| - 1]
      case Heard(p, ip, at) => LookupHear(before, p, ip, at, p.deviceName);
      case Swept(at) => FreshUnique(before.devices, at);
      case Renamed(_, _) =>
    }
  }

  /** The entry that the table holds for `name` after the first `k` events. */
  function EntryAt(own: Text, port: u16, h: seq<Happening>, k: nat, name: Text): Option<Device>
    requires k <= |h|
  {
    Lookup(After(own, port, h[..k]).devices, name)
  }

  lemma EntryStep(own: Text, port: u16, h: seq<Happening>, k: nat, name: Text)
    requires k < |h|
    ensures EntryAt(own, port, h, k + 1, name) ==
            match h[k]
            case Heard(p, ip, at) =>
              (if !From(own, h, k, name) then EntryAt(own, port, h, k, name)
               else match EntryAt(own, port, h, k, name)
                    case None => Some(Device(name, ip, p.tcpPort, at))
                    case Some(d) => Some(d.(lastSeen := at)))
            case Swept(at) =>
              (match EntryAt(own, port, h, k, name)
               case None => None
               case Some(d) => if Expired(d, at) then None else Some(d))
            case Renamed(_, _) => EntryAt(own, port, h, k, name)
  {
    hide Lookup, Unique;
    var before := After(own, port, h[..k]);
    assert h[..k + 1][..k] == h[..k];
    TableUnique(own, port, h[..k]);
    match h[k]
    case Heard(p, ip, at) => LookupHear(before, p, ip, at, name);
    case Swept(at) => LookupFresh(before.devices, at, name);
    case Renamed(_, _) =>
  }

  /** An entry at `k`: born from packet `i` when the name was absent, kept ever since, and last
      refreshed by packet `j`, the latest so far. */
  ghost predicate Explained(own: Text, port: u16, h: seq<Happening>, k: nat, name: Text, i: int, j: int)
    requires k <= |h|
  {
    && 0 <= i <= j < k
    && From(own, h, i, name) && EntryAt(own, port, h, i, name).None?
    && (forall m :: i < m <= k ==> EntryAt(own, port, h, m, name).Some?)
    && Latest(own, h, k, j, name)
    && EntryAt(own, port, h, k, name) == Some(Device(name, h[i].ip, h[i].packet.tcpPort, h[j].at))
  }

  lemma NoEntryAtStart(own: Text, port: u16, h: seq<Happening>, name: Text)
    ensures EntryAt(own, port, h, 0, name).None?
  {
    assert h[..0] == [];
  }

  lemma {:induction false} EntryExplained(own: Text, port: u16, h: seq<Happening>, k: nat, name: Text) returns (i: int, j: int)
    requires k <= |h| && EntryAt(own, port, h, k, name).Some?
    ensures Explained(own, port, h, k, name, i, j)
  {
    hide EntryAt;
    NoEntryAtStart(own, port, h, name);
    EntryStep(own, port, h, k - 1, name);
    if EntryAt(own, port, h, k - 1, name).None? {
      i, j := k - 1, k - 1;
    } else {
      i, j := EntryExplained(own, port, h, k - 1, name);
      if From(own, h, k - 1, name) {
        j := k - 1;
      }
    }
  }

  /** No entry although packets came: a sweep later than the latest packet found it too old. */
  lemma {:induction false} AbsenceExplained(own: Text, port: u16, h: seq<Happening>, k: nat, name: Text, j: int) returns (m: int)
    requires k <= |h| && EntryAt(own, port, h, k, name).None? && Latest(own, h, k, j, name)
    ensures j < m < k && h[m].Swept? && h[j].at + WAIT_TIME < h[m].at
  {
    hide EntryAt;
    EntryStep(own, port, h, k - 1, name);
    if EntryAt(own, port, h, k - 1, name).Some? {
      var i, j' := EntryExplained(own, port, h, k - 1, name);
      assert j' == j;
      m := k - 1;
    } else {
      m := AbsenceExplained(own, port, h, k - 1, name, j);
    }
  }

  /** Right after a sweep at `now`, on a steady clock, the table lists exactly the names whose latest
      packet, of those not ignored as the service's own, is at most 15 seconds old; each entry has the
      address and port of the packet that brought the device back and the time of its latest packet. */
  lemma TableAfterSweep(own: Text, port: u16, h: seq<Happening>, name: Text)
    requires Monotone(h) && h != [] && h[|h| - 1].Swept?
    ensures var now := h[|h| - 1].at;
            Lookup(After(own, port, h).devices, name).Some? <==>
            exists j :: Latest(own, h, |h|, j, name) && h[j].at + 15 >= now
    ensures Lookup(After(own, port, h).devices, name).Some? ==>
              exists i, j :: Explained(own, port, h, |h|, name, i, j)
    ensures Unique(After(own, port, h).devices)
  {
    hide Lookup, Unique;
    var n := |h|;
    var now := h[n - 1].at;
    assert h[..n] == h;
    TableUnique(own, port, h);
    if EntryAt(own, port, h, n, name).Some? {
      var i, j := EntryExplained(own, port, h, n, name);
      EntryStep(own, port, h, n - 1, name);
      assert Latest(own, h, |h|, j, name) && h[j].at + WAIT_TIME >= now;
    } else {
      forall j | Latest(own, h, |h|, j, name) ensures h[j].at + WAIT_TIME < now {
        var m := AbsenceExplained(own, port, h, n, name, j);
      }
    }
  }

  lemma {:induction false} NameSince(own: Text, h: seq<Happening>, r: nat, k: nat)
    requires r < k <= |h| && h[r].Renamed? && forall m :: r < m < k ==> !h[m].Renamed?
    ensures OwnName(own, h[..k]) == h[r].name
    decreases k
  {
    assert h[..k][..k - 1] == h[..k - 1];
    if k == r + 1 {
    } else {
      NameSince(own, h, r, k - 1);
    }
  }

  /** A service that takes the name of another device hears that device no more, but does not forget it
      either: until the next rename, a sweep keeps the entry exactly while the latest packet from before
      the rename is at most 15 seconds old. */
  lemma RenamedToListed(own: Text, port: u16, h: seq<Happening>, r: nat, name: Text)
    requires Monotone(h) && h != [] && h[|h| - 1].Swept?
    requires r < |h| && h[r].Renamed? && h[r].name == name && forall m :: r < m < |h| ==> !h[m].Renamed?
    ensures OwnName(own, h) == name
    ensures Lookup(After(own, port, h).devices, name).Some? <==>
            exists j :: Latest(own, h, r, j, name) && h[j].at + 15 >= h[|h| - 1].at
  {
    hide Lookup, Unique;
    forall m | r <= m < |h| ensures !From(own, h, m, name) {
      if r < m {
        NameSince(own, h, r, m);
      }
    }
    NameSince(own, h, r, |h|);
    assert h[..|h|] == h;
    forall j ensures Latest(own, h, r, j, name) <==> Latest(own, h, |h|, j, name) {
    }
    TableAfterSweep(own, port, h, name);
  }

  // ------------------------------------------------------------------ notices

  /** The notices about one name, in order. */
  function About(log: seq<Notice>, name: Text): seq<Notice> {
    if log == [] then [] else
    var rest := About(log[..|log| - 1], name);
    if log[|log| - 1].device.name == name then rest + [log[|log| - 1]] else rest
  }

  lemma {:induction false} AboutConcat(a: seq<Notice>, b: seq<Notice>, name: Text)
    ensures About(a + b, name) == About(a, name) + About(b, name)
    decreases |b|
  {
    if b == [] {
      assert a + b == a;
    } else {
      assert (a + b)[..|a + b| - 1] == a + b[..|b| - 1];
      AboutConcat(a, b[..|b| - 1], name);
    }
  }

  /** Found first, then left and found in turn. */
  predicate Alternating(s: seq<Notice>) {
    forall k :: 0 <= k < |s| ==> (s[k].Found? <==> k % 2 == 0)
  }

  lemma AboutOneMore(log: seq<Notice>, n: Notice, name: Text)
    ensures About(log + [n], name) == About(log, name) + if n.device.name == name then [n] else []
  {
    assert (log + [n])[..|log|] == log;
  }

  lemma {:induction false} AboutDepartures(devices: seq<Device>, now: int, name: Text)
    requires Unique(devices)
    ensures About(Departures(Stale(devices, now)), name) ==
            match Lookup(devices, name)
            case None => []
            case Some(d) => if Expired(d, now) then [Left(d)] else []
    decreases |devices|
  {
    if devices == [] {
    } else {
      var n := |devices| - 1;
      var front, last := devices[..n], devices[n];
      hide Lookup, Unique, About;
      assert devices == front + [last];
      LookupLast(front, last, name);
      AboutDepartures(front, now, name);
      if Expired(last, now) {
        var stale := Departures(Stale(front, now));
        assert Departures(Stale(devices, now)) == stale + [Left(last)];
        AboutOneMore(stale, Left(last), name);
      }
    }
  }

  lemma LookupLast(front: seq<Device>, last: Device, name: Text)
    requires Unique(front + [last])
    ensures Unique(front)
    ensures Lookup(front + [last], name) == if last.name == name then Some(last) else Lookup(front, name)
    ensures last.name == name ==> Lookup(front, name).None?
  {
    var all := front + [last];
    assert forall i :: 0 <= i < |front| ==> all[i] == front[i];
    if last.name == name {
      LookupUnique(all, |front|);
      assert forall i :: 0 <= i < |front| ==> front[i].name != name;
    } else if IndexOf(front, name) < |front| {
      LookupUnique(all, IndexOf(front, name));
    } else {
      assert forall i :: 0 <= i < |all| ==> all[i].name != name;
    }
  }

  /** Notices about `name` alternate, and the last one is a found notice exactly while it is listed. */
  predicate InStep(s: Service, name: Text) {
    && Alternating(About(s.log, name))
    && (|About(s.log, name)| % 2 == 1 <==> Lookup(s.devices, name).Some?)
  }

  lemma HearInStep(s: Service, p: Discovery, ip: Text, at: int, name: Text)
    requires Unique(s.devices) && InStep(s, name)
    ensures InStep(Hear(s, p, ip, at), name)
  {
    hide Hear, Lookup, About, Alternating, Unique;
    LookupHear(s, p, ip, at, name);
    HearNotice(s, p, ip, at, name);
    OneMore(About(s.log, name), Found(Device(name, ip, p.tcpPort, at)));
  }

  lemma SweepInStep(s: Service, at: int, name: Text)
    requires Unique(s.devices) && InStep(s, name)
    ensures InStep(Sweep(s, at), name)
  {
    hide Lookup, About, Alternating, Unique, Departures, Fresh, Stale;
    LookupFresh(s.devices, at, name);
    AboutConcat(s.log, Departures(Stale(s.devices, at)), name);
    AboutDepartures(s.devices, at, name);
    match Lookup(s.devices, name)
    case None => assert About(s.log, name) + [] == About(s.log, name);
    case Some(d) => OneMore(About(s.log, name), Left(d));
  }

  /** For every name and every history, found and left notices alternate, and the last one is a found
      notice exactly while the device is in the table. */
  lemma {:induction false} NoticesAlternate(own: Text, port: u16, h: seq<Happening>, name: Text)
    ensures InStep(After(own, port, h), name)
    decreases |h|
  {
    hide Hear, Sweep, Unique;
    if h == [] {
    } else {
      var before := After(own, port, h[..|h| - 1]);
      NoticesAlternate(own, port, h[..|h| - 1], name);
      TableUnique(own, port, h[..|h| - 1]);
      match h[|h| - 1]
      case Heard(p, ip, at) => HearInStep(before, p, ip, at, name);
      case Swept(at) => SweepInStep(before, at, name);
      case Renamed(_, _) =>
    }
  }

  lemma OneMore(s: seq<Notice>, n: Notice)
    requires Alternating(s)
    ensures (n.Found? <==> |s| % 2 == 0) ==> Alternating(s + [n])
    ensures s + [] == s
  {
  }

  lemma HearNotice(s: Service, p: Discovery, ip: Text, at: int, name: Text)
    ensures About(Hear(s, p, ip, at).log, name) ==
            About(s.log, name) +
            if name == p.deviceName && name != s.name && Lookup(s.devices, name).None?
            then [Found(Device(name, ip, p.tcpPort, at))] else []
  {
    var d := Device(p.deviceName, ip, p.tcpPort, at);
    assert (s.log + [Found(d)])[..|s.log|] == s.log;
  }

  // ------------------------------------------------------------------ conservation

  /** A device without its time stamp. */
  function Identity(d: Device): Device { d.(lastSeen := 0) }

  function Identities(devices: seq<Device>): multiset<Device> {
    if devices == [] then multiset{} else
    Identities(devices[..|devices| - 1]) + multiset{Identity(devices[|devices| - 1])}
  }

  function FoundOnes(log: seq<Notice>): multiset<Device> {
    if log == [] then multiset{} else
    var n := log[|log| - 1];
    FoundOnes(log[..|log| - 1]) + if n.Found? then multiset{Identity(n.device)} else multiset{}
  }

  function LeftOnes(log: seq<Notice>): multiset<Device> {
    if log == [] then multiset{} else
    var n := log[|log| - 1];
    LeftOnes(log[..|log| - 1]) + if n.Left? then multiset{Identity(n.device)} else multiset{}
  }

  lemma {:induction false} SweepSplits(devices: seq<Device>, now: int)
    ensures Identities(devices) == Identities(Fresh(devices, now)) + Identities(Stale(devices, now))
    decreases |devices|
  {
    if devices == [] {
    } else {
      var n := |devices| - 1;
      var kept, stale := Fresh(devices, now), Stale(devices, now);
      SweepSplits(devices[..n], now);
      if Expired(devices[n], now) {
        assert stale[..|stale| - 1] == Stale(devices[..n], now);
      } else {
        assert kept[..|kept| - 1] == Fresh(devices[..n], now);
      }
    }
  }

  lemma LogOneMore(log: seq<Notice>, n: Notice)
    ensures FoundOnes(log + [n]) == FoundOnes(log) + if n.Found? then multiset{Identity(n.device)} else multiset{}
    ensures LeftOnes(log + [n]) == LeftOnes(log) + if n.Left? then multiset{Identity(n.device)} else multiset{}
  {
    assert (log + [n])[..|log|] == log;
  }

  lemma {:induction false} LogDepartures(log: seq<Notice>, devices: seq<Device>)
    ensures FoundOnes(log + Departures(devices)) == FoundOnes(log)
    ensures LeftOnes(log + Departures(devices)) == LeftOnes(log) + Identities(devices)
    decreases |devices|
  {
    hide FoundOnes, LeftOnes, Identity;
    if devices == [] {
      assert log + Departures(devices) == log;
    } else {
      var n := |devices| - 1;
      var front := log + Departures(devices[..n]);
      LogDepartures(log, devices[..n]);
      assert log + Departures(devices) == front + [Left(devices[n])];
      LogOneMore(front, Left(devices[n]));
    }
  }

  lemma IdentitiesOneMore(devices: seq<Device>, d: Device)
    ensures Identities(devices + [d]) == Identities(devices) + multiset{Identity(d)}
  {
    assert (devices + [d])[..|devices|] == devices;
  }

  lemma {:induction false} RefreshKeepsIdentities(devices: seq<Device>, i: nat, at: int)
    requires i < |devices|
    ensures Identities(devices[i := devices[i].(lastSeen := at)]) == Identities(devices)
    decreases |devices|
  {
    hide Identities;
    var n := |devices| - 1;
    var front, last, d := devices[..n], devices[n], devices[i].(lastSeen := at);
    assert devices == front + [last];
    IdentitiesOneMore(front, last);
    if i < n {
      RefreshKeepsIdentities(front, i, at);
      assert devices[i := d] == front[i := d] + [last];
      IdentitiesOneMore(front[i := d], last);
    } else {
      assert devices[i := d] == front + [d];
      IdentitiesOneMore(front, d);
    }
  }

  /** Every device ever found has either left since or is in the table: found = left + present. */
  lemma {:induction false} FoundIsLeftPlusPresent(own: Text, port: u16, h: seq<Happening>)
    ensures var s := After(own, port, h);
            FoundOnes(s.log) == LeftOnes(s.log) + Identities(s.devices)
    decreases |h|
  {
    if h == [] {
    } else {
      hide FoundOnes, LeftOnes, Identities, Hear, Sweep;
      var n := |h| - 1;
      var s := After(own, port, h[..n]);
      FoundIsLeftPlusPresent(own, port, h[..n]);
      match h[n]
      case Heard(p, ip, at) => HearConserves(s, p, ip, at);
      case Swept(at) => SweepConserves(s, at);
      case Renamed(_, _) =>
    }
  }

  lemma SweepConserves(s: Service, at: int)
    requires FoundOnes(s.log) == LeftOnes(s.log) + Identities(s.devices)
    ensures var t := Sweep(s, at);
            FoundOnes(t.log) == LeftOnes(t.log) + Identities(t.devices)
  {
    hide FoundOnes, LeftOnes, Identities, Fresh, Stale;
    SweepSplits(s.devices, at);
    LogDepartures(s.log, Stale(s.devices, at));
  }

  lemma HearConserves(s: Service, p: Discovery, ip: Text, at: int)
    requires FoundOnes(s.log) == LeftOnes(s.log) + Identities(s.devices)
    ensures var t := Hear(s, p, ip, at);
            FoundOnes(t.log) == LeftOnes(t.log) + Identities(t.devices)
  {
    hide FoundOnes, LeftOnes, Identities, Identity;
    var i := IndexOf(s.devices, p.deviceName);
    if i < |s.devices| {
      RefreshKeepsIdentities(s.devices, i, at);
    } else {
      var d := Device(p.deviceName, ip, p.tcpPort, at);
      LogOneMore(s.log, Found(d));
      IdentitiesOneMore(s.devices, d);
    }
  }

  // ------------------------------------------------------------------ replaying the notices

  /** The table without its time stamps. */
  function Shown(devices: seq<Device>): (r: seq<Device>)
    ensures |r| == |devices| && forall i :: 0 <= i < |r| ==> r[i] == Identity(devices[i])
  {
    seq(|devices|, i requires 0 <= i < |devices| => Identity(devices[i]))
  }

  function WithoutName(shown: seq<Device>, name: Text): seq<Device> {
    if shown == [] then [] else
    var n := |shown| - 1;
    WithoutName(shown[..n], name) + if shown[n].name == name then [] else [shown[n]]
  }

  /** What a user interface shows that adds a device at the end when it is found and removes it when it
      has left. */
  function Replay(log: seq<Notice>): seq<Device> {
    if log == [] then [] else
    var before := Replay(log[..|log| - 1]);
    match log[|log| - 1]
    case Found(d) => before + [Identity(d)]
    case Left(d) => WithoutName(before, d.name)
  }

  function WithoutAll(shown: seq<Device>, gone: seq<Device>): seq<Device> {
    if gone == [] then shown else WithoutName(WithoutAll(shown, gone[..|gone| - 1]), gone[|gone| - 1].name)
  }

  lemma WithoutLast(shown: seq<Device>, d: Device, name: Text)
    ensures WithoutName(shown + [d], name) == WithoutName(shown, name) + if d.name == name then [] else [d]
  {
    assert (shown + [d])[..|shown|] == shown;
  }

  lemma {:induction false} WithoutAbsent(shown: seq<Device>, name: Text)
    requires forall i :: 0 <= i < |shown| ==> shown[i].name != name
    ensures WithoutName(shown, name) == shown
  {
    if shown == [] {
    } else {
      WithoutAbsent(shown[..|shown| - 1], name);
    }
  }

  lemma {:induction false} WithoutAllLast(shown: seq<Device>, d: Device, gone: seq<Device>)
    requires forall i :: 0 <= i < |gone| ==> gone[i].name != d.name
    ensures WithoutAll(shown + [d], gone) == WithoutAll(shown, gone) + [d]
    decreases |gone|
  {
    if gone == [] {
    } else {
      var n := |gone| - 1;
      WithoutAllLast(shown, d, gone[..n]);
      WithoutLast(WithoutAll(shown, gone[..n]), d, gone[n].name);
    }
  }

  lemma {:induction false} StaleMembers(devices: seq<Device>, now: int, d: Device)
    requires d in Stale(devices, now)
    ensures d in devices
    decreases |devices|
  {
    if devices == [] {
    } else {
      var n := |devices| - 1;
      if d in Stale(devices[..n], now) {
        StaleMembers(devices[..n], now, d);
      }
    }
  }

  lemma ShownLast(devices: seq<Device>, d: Device)
    ensures Shown(devices + [d]) == Shown(devices) + [Identity(d)]
  {
  }

  /** Removing the dropped devices one by one leaves the fresh ones in their order. */
  lemma {:induction false} SweepShown(devices: seq<Device>, now: int)
    requires Unique(devices)
    ensures WithoutAll(Shown(devices), Stale(devices, now)) == Shown(Fresh(devices, now))
    decreases |devices|
  {
    if devices == [] {
    } else {
      var n := |devices| - 1;
      var front, last := devices[..n], devices[n];
      var gone, kept := Stale(front, now), Fresh(front, now);
      assert devices == front + [last];
      SweepShown(front, now);
      ShownLast(front, last);
      ShownLast(kept, last);
      forall i | 0 <= i < |gone| ensures gone[i].name != last.name {
        StaleMembers(front, now, gone[i]);
      }
      WithoutAllLast(Shown(front), Identity(last), gone);
      if Expired(last, now) {
        assert (gone + [last])[..|gone|] == gone;
        forall i | 0 <= i < |kept| ensures Shown(kept)[i].name != last.name {
          FreshMembers(front, now, kept[i]);
        }
        WithoutLast(Shown(kept), Identity(last), last.name);
        WithoutAbsent(Shown(kept), last.name);
      }
    }
  }

  lemma {:induction false} ReplayDepartures(log: seq<Notice>, gone: seq<Device>)
    ensures Replay(log + Departures(gone)) == WithoutAll(Replay(log), gone)
    decreases |gone|
  {
    if gone == [] {
      assert log + Departures(gone) == log;
    } else {
      var n := |gone| - 1;
      var all := log + Departures(gone);
      ReplayDepartures(log, gone[..n]);
      assert all[..|all| - 1] == log + Departures(gone[..n]) && all[|all| - 1] == Left(gone[n]);
    }
  }

  lemma HearReplays(s: Service, p: Discovery, ip: Text, at: int)
    requires Replay(s.log) == Shown(s.devices)
    ensures var t := Hear(s, p, ip, at); Replay(t.log) == Shown(t.devices)
  {
    var i := IndexOf(s.devices, p.deviceName);
    var d := Device(p.deviceName, ip, p.tcpPort, at);
    if p.deviceName == s.name {
    } else if i < |s.devices| {
      assert Shown(s.devices[i := s.devices[i].(lastSeen := at)]) == Shown(s.devices);
    } else {
      assert (s.log + [Found(d)])[..|s.log|] == s.log;
      ShownLast(s.devices, d);
    }
  }

  /** Whoever follows the notices sees the table: the same devices, with the same addresses and ports, in
      the same order. */
  lemma {:induction false} NoticesShowTable(own: Text, port: u16, h: seq<Happening>)
    ensures Replay(After(own, port, h).log) == Shown(After(own, port, h).devices)
    decreases |h|
  {
    if h == [] {
    } else {
      hide Hear, Unique, Replay;
      var n := |h| - 1;
      var s := After(own, port, h[..n]);
      NoticesShowTable(own, port, h[..n]);
      TableUnique(own, port, h[..n]);
      match h[n]
      case Heard(p, ip, at) => HearReplays(s, p, ip, at);
      case Swept(at) =>
        ReplayDepartures(s.log, Stale(s.devices, at));
        SweepShown(s.devices, at);
      case Renamed(_, _) =>
    }
  }
}
