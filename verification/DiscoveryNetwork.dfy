/** Any number of discovery services exchanging broadcasts and replies over a lossy network. */
module DiscoveryNetwork {
  import opened Bytes
  import opened Header
  import opened Payloads
  import opened DeviceTable
  import opened DiscoveryHistory

  /** A datagram in flight; `from` and `to` are positions in the list of services. */
  datatype Datagram = Datagram(kind: Byte, from: nat, to: nat, bytes: Text)

  /** The services, their addresses, and the datagrams that were neither delivered nor lost yet. */
  datatype Network = Network(services: seq<Service>, addresses: seq<Text>, flight: seq<Datagram>)

  /** `at` is the time on the clock of the service that acts; `stale` is what its receive buffer holds
      from earlier datagrams. */
  datatype NetAction =
    | Deliver(k: nat, at: int, stale: Text)
    | Lose(k: nat)
    | Tick(i: nat, at: int)

  /** What service `s` sends, as a datagram of this kind. */
  function SentBy(s: Service, kind: Byte, from: nat, to: nat): Datagram {
    Datagram(kind, from, to, Announcement(s.name, s.tcpPort, kind))
  }

  predicate WellFormed(n: Network) {
    && |n.addresses| == |n.services|
    && (forall i :: 0 <= i < |n.services| ==> |n.services[i].name| <= MAX_NAME)
    && forall k :: 0 <= k < |n.flight| ==> Genuine(n, n.flight[k])
  }

  predicate Genuine(n: Network, d: Datagram) {
    && d.from < |n.services| && d.to < |n.services|
    && (d.kind == DISCOVERY_BROADCAST || d.kind == DISCOVERY_REPLY)
    && d == SentBy(n.services[d.from], d.kind, d.from, d.to)
  }

  predicate Possible(n: Network, a: NetAction) {
    match a
    case Deliver(k, _, stale) => k < |n.flight| && |stale| == BUFFER_MAX_SIZE
    case Lose(k) => k < |n.flight|
    case Tick(i, _) => i < |n.services|
  }

  function Own(s: Service): Discovery { Discovery(s.name, s.tcpPort) }

  function Without(flight: seq<Datagram>, k: nat): seq<Datagram>
    requires k < |flight|
  {
    flight[..k] + flight[k + 1..]
  }

  /** A broadcast reaches every service, the sender's own included. */
  function Broadcast(n: Network, i: nat): (r: seq<Datagram>)
    requires i < |n.services|
    ensures |r| == |n.services|
  {
    seq(|n.services|, j requires 0 <= j => SentBy(n.services[i], DISCOVERY_BROADCAST, i, j))
  }

  /** The datagrams that carry an answer back to the sender of `d`. */
  function Answer(d: Datagram, reply: Option<Text>): seq<Datagram> {
    match reply
    case None => []
    case Some(bytes) => [Datagram(DISCOVERY_REPLY, d.to, d.from, bytes)]
  }

  function NetStep(n: Network, a: NetAction): Network
    requires WellFormed(n) && Possible(n, a)
  {
    match a
    case Deliver(k, at, stale) =>
      var d := n.flight[k];
      var (s, reply) := Handle(n.services[d.to], Landed(d.bytes, stale), n.addresses[d.from], at);
      n.(services := n.services[d.to := s], flight := Without(n.flight, k) + Answer(d, reply))
    case Lose(k) => n.(flight := Without(n.flight, k))
    case Tick(i, at) =>
      n.(services := n.services[i := Sweep(n.services[i], at)], flight := n.flight + Broadcast(n, i))
  }

  /** Every delivery in a well-formed network keeps the handler inside its buffer, and the listener
      hears name and port of the sender; a broadcast of another service is answered. */
  lemma DeliveryIsHeard(n: Network, k: nat, at: int, stale: Text)
    requires WellFormed(n) && Possible(n, Deliver(k, at, stale))
    ensures var d := n.flight[k];
            var s, from := n.services[d.to], n.services[d.from];
            && Readable(Landed(d.bytes, stale))
            && NetStep(n, Deliver(k, at, stale)) ==
               n.(services := n.services[d.to := Hear(s, Own(from), n.addresses[d.from], at)],
                  flight := Without(n.flight, k) +
                            if d.kind == DISCOVERY_BROADCAST && from.name != s.name
                            then [SentBy(s, DISCOVERY_REPLY, d.to, d.from)] else [])
  {
    hide PacketIn, Readable, Landed, Announcement, Cut;
    var d := n.flight[k];
    var from := n.services[d.from];
    assert Genuine(n, d);
    AnnouncementIsHeard(from.name, from.tcpPort, d.kind, stale);
    AnnouncementIsReadable(from.name, from.tcpPort, d.kind, stale);
  }

  lemma StepKeepsNames(n: Network, a: NetAction)
    requires WellFormed(n) && Possible(n, a)
    ensures |NetStep(n, a).services| == |n.services| && NetStep(n, a).addresses == n.addresses
    ensures forall i :: 0 <= i < |n.services| ==>
              NetStep(n, a).services[i].name == n.services[i].name && NetStep(n, a).services[i].tcpPort == n.services[i].tcpPort
  {
    hide Landed, Announcement, PacketIn;
  }

  /** A datagram in flight was there before, or was sent just now. */
  lemma StepFlight(n: Network, a: NetAction, d: Datagram)
    requires WellFormed(n) && Possible(n, a) && d in NetStep(n, a).flight
    ensures Genuine(n, d)
  {
    hide Handle, Landed, Announcement;
    if a.Deliver? {
      DeliveryIsHeard(n, a.k, a.at, a.stale);
    }
    if k :| 0 <= k < |n.flight| && n.flight[k] == d {
      assert Genuine(n, n.flight[k]);
    }
  }

  lemma StepWellFormed(n: Network, a: NetAction)
    requires WellFormed(n) && Possible(n, a)
    ensures WellFormed(NetStep(n, a))
    ensures |NetStep(n, a).services| == |n.services|
    ensures forall i :: 0 <= i < |n.services| ==>
              NetStep(n, a).services[i].name == n.services[i].name && NetStep(n, a).services[i].tcpPort == n.services[i].tcpPort
  {
    hide NetStep, Announcement;
    StepKeepsNames(n, a);
    var m := NetStep(n, a);
    forall k | 0 <= k < |m.flight| ensures Genuine(m, m.flight[k]) {
      StepFlight(n, a, m.flight[k]);
    }
  }

  ghost predicate IsNetRun(run: seq<Network>, actions: seq<NetAction>) {
    && |run| == |actions| + 1
    && forall k :: 0 <= k < |actions| ==>
         WellFormed(run[k]) && Possible(run[k], actions[k]) && run[k + 1] == NetStep(run[k], actions[k])
  }

  // ------------------------------------------------------------------ quiescence

  /** Two for every broadcast in flight, one for every reply. */
  function Weight(flight: seq<Datagram>): nat {
    if flight == [] then 0 else
    Weight(flight[..|flight| - 1]) + if flight[|flight| - 1].kind == DISCOVERY_BROADCAST then 2 else 1
  }

  lemma {:induction false} WeightConcat(a: seq<Datagram>, b: seq<Datagram>)
    ensures Weight(a + b) == Weight(a) + Weight(b)
    decreases |b|
  {
    if b == [] {
      assert a + b == a;
    } else {
      assert (a + b)[..|a + b| - 1] == a + b[..|b| - 1];
      WeightConcat(a, b[..|b| - 1]);
    }
  }

  lemma WeightOfOne(d: Datagram)
    ensures Weight([d]) == if d.kind == DISCOVERY_BROADCAST then 2 else 1
    ensures Weight([]) == 0
  {
    assert [d][..0] == [];
  }

  lemma WeightWithout(flight: seq<Datagram>, k: nat)
    requires k < |flight|
    ensures Weight(flight) == Weight(Without(flight, k)) + if flight[k].kind == DISCOVERY_BROADCAST then 2 else 1
  {
    hide Weight;
    assert flight == flight[..k] + ([flight[k]] + flight[k + 1..]);
    WeightOfOne(flight[k]);
    WeightConcat(flight[..k], [flight[k]] + flight[k + 1..]);
    WeightConcat([flight[k]], flight[k + 1..]);
    WeightConcat(flight[..k], flight[k + 1..]);
  }

  lemma LossOnly(n: Network, k: nat)
    requires WellFormed(n) && k < |n.flight|
    ensures NetStep(n, Lose(k)).flight == Without(n.flight, k)
  {
  }

  /** Each delivery and each loss lowers the weight, whatever reply it causes. */
  lemma DeliveryLowersWeight(n: Network, a: NetAction)
    requires WellFormed(n) && Possible(n, a) && !a.Tick?
    ensures Weight(NetStep(n, a).flight) < Weight(n.flight)
  {
    hide Weight, NetStep;
    WeightWithout(n.flight, a.k);
    if a.Deliver? {
      var d := n.flight[a.k];
      var reply := SentBy(n.services[d.to], DISCOVERY_REPLY, d.to, d.from);
      DeliveryIsHeard(n, a.k, a.at, a.stale);
      WeightConcat(Without(n.flight, a.k), [reply]);
      WeightOfOne(reply);
      assert Without(n.flight, a.k) + [] == Without(n.flight, a.k);
    } else {
      LossOnly(n, a.k);
    }
  }

  lemma {:induction false} WeightFalls(run: seq<Network>, actions: seq<NetAction>, k: nat)
    requires IsNetRun(run, actions) && k <= |actions| && forall m :: 0 <= m < k ==> !actions[m].Tick?
    ensures k + Weight(run[k].flight) <= Weight(run[0].flight)
  {
    hide NetStep, Weight, WellFormed;
    if k == 0 {
    } else {
      WeightFalls(run, actions, k - 1);
      DeliveryLowersWeight(run[k - 1], actions[k - 1]);
    }
  }

  /** Between timer ticks the exchange dies out: no more actions than the weight at the start, and
      it can only stop with nothing in flight. */
  lemma NetworkQuiesces(run: seq<Network>, actions: seq<NetAction>)
    requires IsNetRun(run, actions) && forall k :: 0 <= k < |actions| ==> !actions[k].Tick?
    ensures |actions| + Weight(run[|actions|].flight) <= Weight(run[0].flight)
    ensures (forall a :: Possible(run[|actions|], a) ==> a.Tick?) ==> run[|actions|].flight == []
  {
    hide NetStep, Weight, WellFormed;
    WeightFalls(run, actions, |actions|);
    if run[|actions|].flight != [] {
      assert Possible(run[|actions|], Deliver(0, 0, seq(BUFFER_MAX_SIZE, _ => 0)));
    }
  }

  // ------------------------------------------------------------------ mutual discovery

  predicate Lists(s: Service, name: Text, since: int) {
    Lookup(s.devices, name).Some? && Lookup(s.devices, name).value.lastSeen >= since
  }

  ghost predicate NamesUnique(n: Network) {
    forall i :: 0 <= i < |n.services| ==> Unique(n.services[i].devices)
  }

  lemma StepKeepsUnique(n: Network, a: NetAction)
    requires WellFormed(n) && Possible(n, a) && NamesUnique(n)
    ensures NamesUnique(NetStep(n, a))
  {
    hide Unique, Handle, Hear;
    match a
    case Deliver(k, at, stale) =>
      var d := n.flight[k];
      DeliveryIsHeard(n, k, at, stale);
      LookupHear(n.services[d.to], Own(n.services[d.from]), n.addresses[d.from], at, []);
    case Lose(k) =>
    case Tick(i, at) => FreshUnique(n.services[i].devices, at);
  }

  /** A listed name stays listed unless a sweep more than 15 seconds later drops it. All times are
      readings of the clock of service `i`. */
  lemma ListedStays(n: Network, a: NetAction, i: nat, name: Text, since: int)
    requires WellFormed(n) && Possible(n, a) && NamesUnique(n) && i < |n.services| && Lists(n.services[i], name, since)
    requires a.Deliver? && n.flight[a.k].to == i ==> a.at >= since
    requires a.Tick? && a.i == i ==> a.at <= since + WAIT_TIME
    ensures Lists(NetStep(n, a).services[i], name, since)
  {
    hide Unique, Lookup, Handle, Hear;
    match a
    case Deliver(k, at, stale) =>
      var d := n.flight[k];
      DeliveryIsHeard(n, k, at, stale);
      if d.to == i {
        LookupHear(n.services[i], Own(n.services[d.from]), n.addresses[d.from], at, name);
      }
    case Lose(k) =>
    case Tick(j, at) =>
      if j == i {
        LookupFresh(n.services[i].devices, at, name);
      }
  }

  lemma DeliveredIsListed(n: Network, k: nat, at: int, stale: Text)
    requires WellFormed(n) && Possible(n, Deliver(k, at, stale)) && NamesUnique(n)
    requires n.services[n.flight[k].from].name != n.services[n.flight[k].to].name
    ensures var d := n.flight[k];
            Lists(NetStep(n, Deliver(k, at, stale)).services[d.to], n.services[d.from].name, at)
  {
    hide Unique, Lookup, Handle, Hear;
    var d := n.flight[k];
    DeliveryIsHeard(n, k, at, stale);
    LookupHear(n.services[d.to], Own(n.services[d.from]), n.addresses[d.from], at, n.services[d.from].name);
  }

  lemma {:induction false} RunFacts(run: seq<Network>, actions: seq<NetAction>, k: nat)
    requires IsNetRun(run, actions) && WellFormed(run[0]) && NamesUnique(run[0]) && k < |run|
    ensures WellFormed(run[k]) && NamesUnique(run[k]) && |run[k].services| == |run[0].services|
    ensures forall i :: 0 <= i < |run[0].services| ==>
              run[k].services[i].name == run[0].services[i].name && run[k].services[i].tcpPort == run[0].services[i].tcpPort
  {
    hide NetStep, NamesUnique, WellFormed;
    if k == 0 {
    } else {
      RunFacts(run, actions, k - 1);
      StepWellFormed(run[k - 1], actions[k - 1]);
      StepKeepsUnique(run[k - 1], actions[k - 1]);
    }
  }

  lemma {:induction false} ListedThroughout(run: seq<Network>, actions: seq<NetAction>, p: nat, q: nat, i: nat, name: Text, since: int)
    requires IsNetRun(run, actions) && WellFormed(run[0]) && NamesUnique(run[0]) && p <= q < |run|
    requires i < |run[0].services| && |run[p].services| == |run[0].services| && Lists(run[p].services[i], name, since)
    requires forall k :: p <= k < q && actions[k].Deliver? && run[k].flight[actions[k].k].to == i ==> actions[k].at >= since
    requires forall k :: p <= k < q && actions[k].Tick? && actions[k].i == i ==> actions[k].at <= since + WAIT_TIME
    ensures |run[q].services| == |run[0].services| && Lists(run[q].services[i], name, since)
    decreases q - p
  {
    hide NetStep, NamesUnique, Lists, WellFormed;
    if p == q {
    } else {
      ListedThroughout(run, actions, p, q - 1, i, name, since);
      RunFacts(run, actions, q - 1);
      RunFacts(run, actions, q);
      ListedStays(run[q - 1], actions[q - 1], i, name, since);
    }
  }

  /** If a broadcast of `a` is delivered to `b` and afterwards a reply of `b` to `a`, and in between, on
      the clock of `b`, packets come no earlier and sweeps at most 15 seconds later than the first
      delivery, then both list each other; and the first delivery did put such a reply in flight. */
  lemma MutualDiscovery(run: seq<Network>, actions: seq<NetAction>, p: nat, q: nat, a: nat, b: nat)
    requires IsNetRun(run, actions) && WellFormed(run[0]) && NamesUnique(run[0]) && p < q < |actions|
    requires a < |run[0].services| && b < |run[0].services| && run[0].services[a].name != run[0].services[b].name
    requires actions[p].Deliver? && actions[q].Deliver?
    requires run[p].flight[actions[p].k] == SentBy(run[0].services[a], DISCOVERY_BROADCAST, a, b)
    requires run[q].flight[actions[q].k] == SentBy(run[0].services[b], DISCOVERY_REPLY, b, a)
    requires forall k :: p < k < q && actions[k].Deliver? && run[k].flight[actions[k].k].to == b ==>
               actions[k].at >= actions[p].at
    requires forall k :: p < k < q && actions[k].Tick? && actions[k].i == b ==>
               actions[k].at <= actions[p].at + 15
    ensures |run[q + 1].services| == |run[0].services|
    ensures Lookup(run[q + 1].services[a].devices, run[0].services[b].name).Some?
    ensures Lookup(run[q + 1].services[b].devices, run[0].services[a].name).Some?
    ensures SentBy(run[0].services[b], DISCOVERY_REPLY, b, a) in run[p + 1].flight
  {
    hide NamesUnique, Lookup, WellFormed, NetStep, Announcement;
    var since := actions[p].at;
    RunFacts(run, actions, p);
    RunFacts(run, actions, p + 1);
    RunFacts(run, actions, q);
    RunFacts(run, actions, q + 1);
    ReplyInFlight(run[p], actions[p].k, since, actions[p].stale);
    DeliveredIsListed(run[p], actions[p].k, since, actions[p].stale);
    ListedThroughout(run, actions, p + 1, q, b, run[0].services[a].name, since);
    OthersStay(run[q], actions[q].k, actions[q].at, actions[q].stale, b);
    DeliveredIsListed(run[q], actions[q].k, actions[q].at, actions[q].stale);
  }

  /** A delivery changes only the service that it goes to. */
  lemma OthersStay(n: Network, k: nat, at: int, stale: Text, i: nat)
    requires WellFormed(n) && Possible(n, Deliver(k, at, stale)) && i < |n.services| && n.flight[k].to != i
    ensures var m := NetStep(n, Deliver(k, at, stale));
            |m.services| == |n.services| && m.services[i] == n.services[i]
  {
    hide Handle, Landed;
  }

  lemma ReplyInFlight(n: Network, k: nat, at: int, stale: Text)
    requires WellFormed(n) && Possible(n, Deliver(k, at, stale)) && n.flight[k].kind == DISCOVERY_BROADCAST
    requires n.services[n.flight[k].from].name != n.services[n.flight[k].to].name
    ensures var d := n.flight[k];
            SentBy(n.services[d.to], DISCOVERY_REPLY, d.to, d.from) in NetStep(n, Deliver(k, at, stale)).flight
  {
    hide Handle, Landed, Announcement;
    DeliveryIsHeard(n, k, at, stale);
    var f := NetStep(n, Deliver(k, at, stale)).flight;
    assert f[|f| - 1] in f;
  }

  /** One timer tick is enough for discovery: from any state, after a tick of `a`, two deliveries leave
      `a` and any other service listing each other, whatever their clocks say and their buffers hold. */
  lemma TickDiscovers(n: Network, a: nat, b: nat, tick: int, at: int, back: int, stale: Text)
      returns (run: seq<Network>, actions: seq<NetAction>)
    requires WellFormed(n) && NamesUnique(n) && a < |n.services| && b < |n.services|
    requires n.services[a].name != n.services[b].name && |stale| == BUFFER_MAX_SIZE
    ensures IsNetRun(run, actions) && run[0] == n && |actions| == 3
    ensures actions[0] == Tick(a, tick)
    ensures actions[1].Deliver? && actions[1].at == at && actions[1].stale == stale
    ensures actions[2].Deliver? && actions[2].at == back && actions[2].stale == stale
    ensures |run[3].services| == |n.services|
    ensures Lookup(run[3].services[a].devices, n.services[b].name).Some?
    ensures Lookup(run[3].services[b].devices, n.services[a].name).Some?
  {
    hide NamesUnique, Lookup, WellFormed, Announcement, Handle, Landed;
    var n1 := NetStep(n, Tick(a, tick));
    StepWellFormed(n, Tick(a, tick));
    var k := |n.flight| + b;
    assert n1.flight[k] == SentBy(n.services[a], DISCOVERY_BROADCAST, a, b);
    var n2 := NetStep(n1, Deliver(k, at, stale));
    StepWellFormed(n1, Deliver(k, at, stale));
    DeliveryIsHeard(n1, k, at, stale);
    var m := |n2.flight| - 1;
    assert n2.flight[m] == SentBy(n.services[b], DISCOVERY_REPLY, b, a);
    var n3 := NetStep(n2, Deliver(m, back, stale));
    run, actions := [n, n1, n2, n3], [Tick(a, tick), Deliver(k, at, stale), Deliver(m, back, stale)];
    assert IsNetRun(run, actions);
    MutualDiscovery(run, actions, 1, 2, a, b);
  }

  // ------------------------------------------------------------------ tables in a network

  /** What service `i` went through in the first `k` actions: the packets delivered to it and its ticks. */
  function HistoryOf(run: seq<Network>, actions: seq<NetAction>, i: nat, k: nat): seq<Happening>
    requires IsNetRun(run, actions) && k <= |actions|
  {
    if k == 0 then [] else HistoryOf(run, actions, i, k - 1) + Lived(run[k - 1], actions[k - 1], i)
  }

  function Lived(n: Network, a: NetAction, i: nat): seq<Happening>
    requires WellFormed(n) && Possible(n, a)
  {
    match a
    case Deliver(k, at, _) =>
      var d := n.flight[k];
      assert Genuine(n, d);
      if d.to == i then [Heard(Own(n.services[d.from]), n.addresses[d.from], at)] else []
    case Lose(_) => []
    case Tick(j, at) => if j == i then [Swept(at)] else []
  }

  lemma LivedStep(n: Network, a: NetAction, i: nat)
    requires WellFormed(n) && Possible(n, a) && i < |n.services|
    ensures |NetStep(n, a).services| == |n.services|
    ensures var lived := Lived(n, a, i);
            NetStep(n, a).services[i] == if lived == [] then n.services[i] else Happen(n.services[i], lived[0])
    ensures |Lived(n, a, i)| <= 1
  {
    hide Handle, Hear, Sweep;
    if a.Deliver? {
      DeliveryIsHeard(n, a.k, a.at, a.stale);
    }
  }

  /** Every service of a network is the service that its own history makes of it. */
  lemma {:induction false} ServiceFollowsHistory(run: seq<Network>, actions: seq<NetAction>, i: nat, k: nat)
    requires IsNetRun(run, actions) && k <= |actions| && i < |run[0].services|
    requires run[0].services[i].devices == [] && run[0].services[i].log == []
    ensures |run[k].services| == |run[0].services|
    ensures run[k].services[i] == After(run[0].services[i].name, run[0].services[i].tcpPort, HistoryOf(run, actions, i, k))
  {
    hide NetStep, Lived, WellFormed, Happen;
    if k == 0 {
    } else {
      ServiceFollowsHistory(run, actions, i, k - 1);
      LivedStep(run[k - 1], actions[k - 1], i);
      var h, lived := HistoryOf(run, actions, i, k - 1), Lived(run[k - 1], actions[k - 1], i);
      if lived != [] {
        assert (h + lived)[..|h + lived| - 1] == h;
      } else {
        assert h + lived == h;
      }
    }
  }

  /** Where an entry of a history comes from. */
  lemma {:induction false} LivedAt(run: seq<Network>, actions: seq<NetAction>, i: nat, k: nat, j: nat) returns (m: nat)
    requires IsNetRun(run, actions) && k <= |actions| && j < |HistoryOf(run, actions, i, k)|
    ensures m < k && Lived(run[m], actions[m], i) == [HistoryOf(run, actions, i, k)[j]]
    decreases k
  {
    hide Lived, NetStep, WellFormed;
    var before := HistoryOf(run, actions, i, k - 1);
    AtMostOne(run[k - 1], actions[k - 1], i);
    if j < |before| {
      m := LivedAt(run, actions, i, k - 1, j);
    } else {
      m := k - 1;
    }
  }

  lemma AtMostOne(n: Network, a: NetAction, i: nat)
    requires WellFormed(n) && Possible(n, a)
    ensures |Lived(n, a, i)| <= 1
  {
  }

  /** What happened is in the history. */
  lemma {:induction false} IsRemembered(run: seq<Network>, actions: seq<NetAction>, i: nat, k: nat, m: nat) returns (j: nat)
    requires IsNetRun(run, actions) && m < k <= |actions| && Lived(run[m], actions[m], i) != []
    ensures j < |HistoryOf(run, actions, i, k)| && HistoryOf(run, actions, i, k)[j] == Lived(run[m], actions[m], i)[0]
    decreases k
  {
    hide Lived, NetStep, WellFormed;
    if m == k - 1 {
      j := |HistoryOf(run, actions, i, k - 1)|;
    } else {
      j := IsRemembered(run, actions, i, k - 1, m);
    }
  }

  /** The clock of service `i` does not run backwards. */
  ghost predicate SteadyClock(run: seq<Network>, actions: seq<NetAction>, i: nat)
    requires IsNetRun(run, actions)
  {
    forall m, n :: 0 <= m <= n < |actions| && Lived(run[m], actions[m], i) != [] && Lived(run[n], actions[n], i) != [] ==>
      Lived(run[m], actions[m], i)[0].at <= Lived(run[n], actions[n], i)[0].at
  }

  lemma {:induction false} HistoryIsMonotone(run: seq<Network>, actions: seq<NetAction>, i: nat, k: nat)
    requires IsNetRun(run, actions) && SteadyClock(run, actions, i) && k <= |actions|
    ensures Monotone(HistoryOf(run, actions, i, k))
  {
    hide Lived, NetStep, WellFormed;
    if k == 0 {
    } else {
      var h := HistoryOf(run, actions, i, k);
      HistoryIsMonotone(run, actions, i, k - 1);
      AtMostOne(run[k - 1], actions[k - 1], i);
      forall a, b | 0 <= a <= b < |h| ensures h[a].at <= h[b].at {
        var m := LivedAt(run, actions, i, k, a);
        if b == |HistoryOf(run, actions, i, k - 1)| {
          assert Lived(run[k - 1], actions[k - 1], i) == [h[b]];
        }
      }
    }
  }

  lemma {:induction false} NeverRenamed(run: seq<Network>, actions: seq<NetAction>, i: nat, k: nat, own: Text, j: nat)
    requires IsNetRun(run, actions) && k <= |actions| && j <= |HistoryOf(run, actions, i, k)|
    ensures OwnName(own, HistoryOf(run, actions, i, k)[..j]) == own
    decreases j
  {
    hide NetStep, WellFormed;
    var h := HistoryOf(run, actions, i, k);
    if j == 0 {
    } else {
      var m := LivedAt(run, actions, i, k, j - 1);
      assert h[j - 1] in Lived(run[m], actions[m], i);
      assert h[..j][..j - 1] == h[..j - 1];
      NeverRenamed(run, actions, i, k, own, j - 1);
    }
  }

  lemma {:induction false} LatestFrom(own: Text, h: seq<Happening>, k: nat, j: int, name: Text) returns (last: int)
    requires From(own, h, j, name) && j < k <= |h|
    ensures j <= last && Latest(own, h, k, last, name)
    decreases k - j
  {
    if m :| j < m < k && From(own, h, m, name) {
      last := LatestFrom(own, h, k, m, name);
    } else {
      last := j;
    }
  }

  /** Action `m` delivers to service `i` a datagram of a service of this name, not its own. */
  ghost predicate HearsAt(run: seq<Network>, actions: seq<NetAction>, i: nat, m: nat, name: Text)
    requires IsNetRun(run, actions) && m < |actions| && i < |run[0].services|
  {
    && run[0].services[i].name != name && actions[m].Deliver?
    && var d := run[m].flight[actions[m].k];
    && d.to == i && d.from < |run[m].services| && run[m].services[d.from].name == name
  }

  lemma HearingIsLived(run: seq<Network>, actions: seq<NetAction>, i: nat, m: nat, name: Text)
    requires IsNetRun(run, actions) && m < |actions| && i < |run[0].services| && run[0].services[i].name != name
    ensures HearsAt(run, actions, i, m, name) <==>
            && Lived(run[m], actions[m], i) != [] && Lived(run[m], actions[m], i)[0].Heard?
            && Lived(run[m], actions[m], i)[0].packet.deviceName == name
    ensures Lived(run[m], actions[m], i) != [] ==> !actions[m].Lose? && Lived(run[m], actions[m], i)[0].at == actions[m].at
  {
    hide NetStep;
    if actions[m].Deliver? {
      assert Genuine(run[m], run[m].flight[actions[m].k]);
    }
  }

  /** A packet in the history was delivered. */
  lemma HistoryWasHeard(run: seq<Network>, actions: seq<NetAction>, i: nat, k: nat, j: nat, name: Text) returns (m: nat)
    requires IsNetRun(run, actions) && k <= |actions| && i < |run[0].services| && j < |HistoryOf(run, actions, i, k)|
    requires From(run[0].services[i].name, HistoryOf(run, actions, i, k), j, name)
    ensures m < k && HearsAt(run, actions, i, m, name) && actions[m].at == HistoryOf(run, actions, i, k)[j].at
  {
    hide NetStep, WellFormed, HistoryOf, Lived, HearsAt;
    m := LivedAt(run, actions, i, k, j);
    NeverRenamed(run, actions, i, k, run[0].services[i].name, j);
    HearingIsLived(run, actions, i, m, name);
  }

  /** A delivered packet is in the history. */
  lemma HeardIsHistory(run: seq<Network>, actions: seq<NetAction>, i: nat, k: nat, m: nat, name: Text) returns (j: nat)
    requires IsNetRun(run, actions) && m < k <= |actions| && i < |run[0].services| && HearsAt(run, actions, i, m, name)
    ensures From(run[0].services[i].name, HistoryOf(run, actions, i, k), j, name)
    ensures actions[m].at == HistoryOf(run, actions, i, k)[j].at
  {
    hide NetStep, WellFormed, HistoryOf, Lived;
    HearingIsLived(run, actions, i, m, name);
    j := IsRemembered(run, actions, i, k, m);
    NeverRenamed(run, actions, i, k, run[0].services[i].name, j);
  }

  lemma HistoryAtTick(run: seq<Network>, actions: seq<NetAction>, i: nat, q: nat, now: int)
    requires IsNetRun(run, actions) && q < |actions| && actions[q] == Tick(i, now)
    ensures HistoryOf(run, actions, i, q + 1) == HistoryOf(run, actions, i, q) + [Swept(now)]
  {
    hide NetStep, WellFormed;
  }

  /** In every network run that starts with an empty table, right after a tick of service `i` its table
      lists exactly the names that it has heard from in the last 15 seconds of its own clock. */
  lemma NetworkTable(run: seq<Network>, actions: seq<NetAction>, i: nat, q: nat, now: int, name: Text)
    requires IsNetRun(run, actions) && SteadyClock(run, actions, i) && i < |run[0].services| && q < |actions|
    requires run[0].services[i].devices == [] && run[0].services[i].log == []
    requires actions[q] == Tick(i, now)
    ensures |run[q + 1].services| == |run[0].services|
    ensures Lookup(run[q + 1].services[i].devices, name).Some? <==>
            exists m :: 0 <= m < q && HearsAt(run, actions, i, m, name) && actions[m].at + 15 >= now
  {
    hide NetStep, WellFormed, Lookup, Unique, After, HistoryOf, SteadyClock, OwnName;
    var own, port := run[0].services[i].name, run[0].services[i].tcpPort;
    var h := HistoryOf(run, actions, i, q + 1);
    HistoryAtTick(run, actions, i, q, now);
    ServiceFollowsHistory(run, actions, i, q + 1);
    HistoryIsMonotone(run, actions, i, q + 1);
    TableAfterSweep(own, port, h, name);
    if j :| Latest(own, h, |h|, j, name) && h[j].at + 15 >= now {
      var m := HistoryWasHeard(run, actions, i, q + 1, j, name);
      assert m < q && HearsAt(run, actions, i, m, name) && actions[m].at + 15 >= now;
    }
    forall m | 0 <= m < q && HearsAt(run, actions, i, m, name) && actions[m].at + 15 >= now
      ensures exists j :: Latest(own, h, |h|, j, name) && h[j].at + 15 >= now
    {
      var j := HeardIsHistory(run, actions, i, q + 1, m, name);
      var last := LatestFrom(own, h, |h|, j, name);
      assert h[j].at <= h[last].at;
    }
  }
}
